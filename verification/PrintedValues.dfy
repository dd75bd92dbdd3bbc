/** What pretty printing does to the value of a printed sum: it is kept exactly when no
    number leaves its product. */
module PrintedValues {
  import opened Numerals
  import opened Strings
  import opened TopLevelText
  import opened PrintedSums

  // ---- The value of a text -------------------------------------------------

  /** Every factor text has whatever value it is given. */
  type Valuation = string -> real

  function ProductValue(factors: seq<string>, value: Valuation): real {
    if factors == [] then 1.0 else value(factors[0]) * ProductValue(factors[1..], value)
  }

  function TermValue(term: string, value: Valuation): real {
    ProductValue(Pieces(term, "*", 0), value)
  }

  function TermsValue(terms: seq<string>, value: Valuation): real {
    if terms == [] then 0.0 else TermValue(terms[0], value) + TermsValue(terms[1..], value)
  }

  /** The first term less all that follow a minus sign. */
  function ChunkValue(chunk: string, value: Valuation): real {
    var terms := Pieces(chunk, " - ", 0);
    TermValue(terms[0], value) - TermsValue(terms[1..], value)
  }

  function ChunksValue(chunks: seq<string>, value: Valuation): real {
    if chunks == [] then 0.0 else ChunkValue(chunks[0], value) + ChunksValue(chunks[1..], value)
  }

  /** A text at its top level: terms with a plus or minus sign between them, each the
      product of its factors. */
  function TextValue(text: string, value: Valuation): real {
    ChunksValue(Pieces(text, " + ", 0), value)
  }

  // ---- Products ------------------------------------------------------------

  lemma {:induction false} ProductValueAppend(a: seq<string>, b: seq<string>, value: Valuation)
    ensures ProductValue(a + b, value) == ProductValue(a, value) * ProductValue(b, value)
  {
    if a == [] {
      assert a + b == b;
    } else {
      assert (a + b)[1..] == a[1..] + b;
      ProductValueAppend(a[1..], b, value);
      Associate(value(a[0]), ProductValue(a[1..], value), ProductValue(b, value));
    }
  }

  lemma Associate(x: real, y: real, z: real)
    ensures x * (y * z) == x * y * z == y * (x * z)
  {}

  lemma {:induction false} ProductPositive(factors: seq<string>, value: Valuation)
    requires forall k :: 0 <= k < |factors| ==> value(factors[k]) > 0.0
    ensures ProductValue(factors, value) > 0.0
  {
    if factors != [] {
      ProductPositive(factors[1..], value);
      TimesPositive(value(factors[0]), ProductValue(factors[1..], value));
    }
  }

  lemma TimesPositive(x: real, y: real)
    requires x > 0.0 && y > 0.0
    ensures x * y > 0.0
  {}

  lemma TimesMore(x: real, y: real, more: real)
    requires x > 1.0 && y > 0.0 && more == x * y
    ensures more > y
  {
    TimesPositive(x - 1.0, y);
    assert x * y == (x - 1.0) * y + y;
  }

  // ---- Chunks --------------------------------------------------------------

  function FactorsValue(factors: Product, value: Valuation): real {
    ProductValue(FactorTexts(factors), value)
  }

  lemma FactorsCons(f: Factor, factors: Product, value: Valuation)
    ensures FactorsValue([f] + factors, value) == value(f.Print()) * FactorsValue(factors, value)
  {
    assert FactorTexts([f] + factors)[1..] == FactorTexts(factors);
  }

  lemma FactorsAppend(a: Product, b: Product, value: Valuation)
    ensures FactorsValue(a + b, value) == FactorsValue(a, value) * FactorsValue(b, value)
  {
    assert FactorTexts(a + b) == FactorTexts(a) + FactorTexts(b);
    ProductValueAppend(FactorTexts(a), FactorTexts(b), value);
  }

  /** Multiplication commutes: any factor can be taken out first. */
  lemma FactorOut(factors: Product, p: nat, value: Valuation)
    requires p < |factors|
    ensures FactorsValue(factors, value) ==
            value(factors[p].Print()) * FactorsValue(Less(factors, p), value)
  {
    var a, f, b := factors[..p], factors[p], factors[p + 1..];
    assert factors == a + ([f] + b);
    FactorsAppend(a, [f] + b, value);
    FactorsCons(f, b, value);
    FactorsAppend(a, b, value);
    TakeOut(value(f.Print()), FactorsValue(a, value), FactorsValue(b, value),
            FactorsValue([f] + b, value), FactorsValue(a + b, value), FactorsValue(factors, value));
  }

  lemma TakeOut(x: real, a: real, b: real, after: real, without: real, whole: real)
    requires after == x * b && without == a * b && whole == a * after
    ensures whole == x * without
  {
    Associate(x, a, b);
  }

  lemma FactorsPositive(factors: Product, value: Valuation)
    requires forall k :: 0 <= k < |factors| ==> value(factors[k].Print()) > 0.0
    ensures FactorsValue(factors, value) > 0.0
  {
    ProductPositive(FactorTexts(factors), value);
  }

  function Total(chunk: Chunk, value: Valuation): real {
    if chunk == [] then 0.0 else FactorsValue(chunk[0], value) + Total(chunk[1..], value)
  }

  lemma {:induction false} TermsTotal(chunk: Chunk, value: Valuation)
    requires forall j :: 0 <= j < |chunk| ==> Pieces(PrintProduct(chunk[j]), "*", 0) == FactorTexts(chunk[j])
    ensures TermsValue(ProductTexts(chunk), value) == Total(chunk, value)
  {
    if chunk != [] {
      assert ProductTexts(chunk)[1..] == ProductTexts(chunk[1..]);
      TermsTotal(chunk[1..], value);
    }
  }

  lemma PrintedChunkValue(chunk: Chunk, value: Valuation)
    requires WellFormedChunk(chunk)
    ensures ChunkValue(PrintChunk(chunk), value) == FactorsValue(chunk[0], value) - Total(chunk[1..], value)
  {
    SplitChunk(chunk);
    assert ProductTexts(chunk)[1..] == ProductTexts(chunk[1..]);
    TermsTotal(chunk[1..], value);
  }

  ghost predicate Positive(chunk: Chunk, value: Valuation) {
    forall j, p :: 0 <= j < |chunk| && 0 <= p < |chunk[j]| ==> value(chunk[j][p].Print()) > 0.0
  }

  /** A product worth more loses a factor above one: what is subtracted becomes less. */
  lemma {:induction false} TotalShrinks(chunk: Chunk, j: nat, p: nat, value: Valuation)
    requires j < |chunk| && p < |chunk[j]| && Positive(chunk, value) && value(chunk[j][p].Print()) > 1.0
    ensures Total(chunk[j := Less(chunk[j], p)], value) < Total(chunk, value)
  {
    var less := Less(chunk[j], p);
    var after := chunk[j := less];
    if j == 0 {
      ProductShrinks(chunk[0], p, value);
      assert after[1..] == chunk[1..];
    } else {
      assert after[1..] == chunk[1..][j - 1 := less];
      TotalShrinks(chunk[1..], j - 1, p, value);
    }
  }

  lemma ProductShrinks(factors: Product, p: nat, value: Valuation)
    requires p < |factors| && forall k :: 0 <= k < |factors| ==> value(factors[k].Print()) > 0.0
    requires value(factors[p].Print()) > 1.0
    ensures FactorsValue(Less(factors, p), value) < FactorsValue(factors, value)
  {
    var less := Less(factors, p);
    var x, y := value(factors[p].Print()), FactorsValue(less, value);
    FactorOut(factors, p, value);
    FactorsPositive(less, value);
    TimesMore(x, y, FactorsValue(factors, value));
  }

  /** A number that stays in its product changes nothing, whatever the factors are worth. */
  lemma StaysKeepsValue(chunk: Chunk, value: Valuation)
    requires WellFormedChunk(chunk) && Filled(chunk) && Stays(chunk)
    ensures ChunkValue(PrintChunk(Shifted(chunk)), value) == ChunkValue(PrintChunk(chunk), value)
  {
    var k, shifted := FirstNumber(chunk), Shifted(chunk);
    ShiftedWellFormed(chunk);
    PrintedChunkValue(chunk, value);
    PrintedChunkValue(shifted, value);
    if 0 < k < |ChunkFactors(chunk)| {
      assert shifted[1..] == chunk[1..];
      FrontedValue(chunk[0], k, value);
    }
  }

  lemma FrontedValue(factors: Product, k: nat, value: Valuation)
    requires k < |factors|
    ensures FactorsValue([factors[k]] + (Less(factors, k)), value) == FactorsValue(factors, value)
  {
    FactorOut(factors, k, value);
    FactorsCons(factors[k], Less(factors, k), value);
  }

  /** A number that leaves its product for the first one makes the chunk worth more,
      whenever the number is above one and all factors are positive. */
  lemma LeavingGrows(chunk: Chunk, value: Valuation)
    requires WellFormedChunk(chunk) && Filled(chunk) && !Stays(chunk) && Positive(chunk, value)
    requires value(ChunkFactors(chunk)[FirstNumber(chunk)]) > 1.0
    ensures ChunkValue(PrintChunk(Shifted(chunk)), value) > ChunkValue(PrintChunk(chunk), value)
  {
    var k := FirstNumber(chunk);
    LaterPlace(chunk, k);
    ShiftedWellFormed(chunk);
    PrintedChunkValue(chunk, value);
    PrintedChunkValue(Fronted(chunk, k), value);
    FrontedGrows(chunk, k, value);
  }

  lemma FrontedGrows(chunk: Chunk, k: nat, value: Valuation)
    requires Filled(chunk) && Alone(chunk) <= k < |ChunkFactors(chunk)| && IsNumeric(ChunkFactors(chunk)[k])
    requires Positive(chunk, value) && value(ChunkFactors(chunk)[k]) > 1.0
    ensures var fronted := Fronted(chunk, k);
            FactorsValue(fronted[0], value) - Total(fronted[1..], value) >
            FactorsValue(chunk[0], value) - Total(chunk[1..], value)
  {
    NumberPlace(chunk, k);
    LaterShrinks(chunk, k, value);
    FirstGrows(chunk[0], Chosen(chunk, k), value);
    var without, fronted := Without(chunk, k), Fronted(chunk, k);
    assert without[0] == chunk[0] && fronted[1..] == without[1..];
  }

  lemma LaterShrinks(chunk: Chunk, k: nat, value: Valuation)
    requires Filled(chunk) && Alone(chunk) <= k < |ChunkFactors(chunk)| && IsNumeric(ChunkFactors(chunk)[k])
    requires Positive(chunk, value) && value(ChunkFactors(chunk)[k]) > 1.0
    ensures Total(Without(chunk, k)[1..], value) < Total(chunk[1..], value)
  {
    LaterPlace(chunk, k);
    NumberPlace(chunk, k);
    var (j, p) := Place(chunk, k);
    var less := Less(chunk[j], p);
    assert chunk[j := less][1..] == chunk[1..][j - 1 := less];
    assert Positive(chunk[1..], value) by {
      assert forall i :: 0 <= i < |chunk| - 1 ==> chunk[1..][i] == chunk[i + 1];
    }
    TotalShrinks(chunk[1..], j - 1, p, value);
  }

  lemma FirstGrows(factors: Product, number: Factor, value: Valuation)
    requires value(number.Print()) > 1.0 && forall k :: 0 <= k < |factors| ==> value(factors[k].Print()) > 0.0
    ensures FactorsValue([number] + factors, value) > FactorsValue(factors, value)
  {
    FactorsCons(number, factors, value);
    FactorsPositive(factors, value);
    TimesMore(value(number.Print()), FactorsValue(factors, value), FactorsValue([number] + factors, value));
  }

  // ---- Whole sums ----------------------------------------------------------

  /** What a caller can see in a chunk of text, split at its stars: the first number
      stands before the first minus sign. */
  predicate NumberFirst(chunk: string) {
    var pieces := Pieces(chunk, "*", 0);
    FirstNumeric(pieces) == |pieces| ||
    forall j :: 0 <= j < FirstNumeric(pieces) ==> |Pieces(pieces[j], " - ", 0)| == 1
  }

  lemma NumberFirstStays(chunk: Chunk)
    requires WellFormedChunk(chunk)
    ensures Filled(chunk) && (NumberFirst(PrintChunk(chunk)) <==> Stays(chunk))
  {
    SplitByStars(chunk);
    var pieces := ChunkFactors(chunk);
    forall j | 0 <= j < Alone(chunk) ensures |Pieces(pieces[j], " - ", 0)| == 1 {
      PieceAlone(chunk, j);
    }
    if |chunk| > 1 {
      PieceLinked(chunk);
    }
  }

  lemma PieceAlone(chunk: Chunk, j: nat)
    requires WellFormedChunk(chunk) && Filled(chunk) && j < Alone(chunk)
    ensures |Pieces(ChunkFactors(chunk)[j], " - ", 0)| == 1
  {
    FactorsSeparable(chunk[0], " - ");
    var piece := FactorTexts(chunk[0])[j];
    assert Hides(piece, " - ");
    SeamlessLast(piece, " - ", 0);
  }

  lemma PieceLinked(chunk: Chunk)
    requires WellFormedChunk(chunk) && Filled(chunk) && |chunk| > 1
    ensures var link := ChunkFactors(chunk)[Alone(chunk)];
            !IsNumeric(link) && |Pieces(link, " - ", 0)| > 1
  {
    FactorsSeparable(chunk[0], " - ");
    var last, rest := FactorTexts(chunk[0])[Alone(chunk)], ChunkFactors(chunk[1..]);
    assert Hides(last, " - ");
    SeamlessPiece(last, rest[0], " - ", 0);
    LinkNotNumeric(last, rest[0]);
  }

  ghost predicate KeepsValue(text: string, value: Valuation) {
    TextValue(Pretty(text), value) == TextValue(text, value)
  }

  /** Whatever its factors are worth. */
  ghost predicate AlwaysKeepsValue(text: string) {
    forall value: Valuation :: KeepsValue(text, value)
  }

  /** Every chunk of the text has its first number before its first minus sign. */
  predicate NumbersFirst(text: string) {
    forall chunk :: chunk in Pieces(text, " + ", 0) ==> NumberFirst(chunk)
  }

  lemma {:induction false} ChunksCompare(sum: Sum, value: Valuation)
    requires forall k :: 0 <= k < |sum| ==> WellFormedChunk(sum[k]) && Filled(sum[k])
    requires forall k :: 0 <= k < |sum| && !Stays(sum[k]) ==>
               Positive(sum[k], value) && value(ChunkFactors(sum[k])[FirstNumber(sum[k])]) > 1.0
    ensures var before, after := ChunksValue(ChunkTexts(sum), value), ChunksValue(ChunkTexts(ShiftedSum(sum)), value);
            after >= before && (after == before <==> forall k :: 0 <= k < |sum| ==> Stays(sum[k]))
  {
    if sum != [] {
      assert ChunkTexts(sum)[1..] == ChunkTexts(sum[1..]);
      assert ChunkTexts(ShiftedSum(sum))[1..] == ChunkTexts(ShiftedSum(sum[1..]));
      ChunksCompare(sum[1..], value);
      if Stays(sum[0]) {
        StaysKeepsValue(sum[0], value);
        assert forall k :: 0 < k < |sum| ==> sum[k] == sum[1..][k - 1];
      } else {
        LeavingGrows(sum[0], value);
      }
    }
  }

  /** One valuation decides: numbers that leave their products above one, and positive
      factors around them. */
  lemma ValueKept(sum: Sum, value: Valuation)
    requires WellFormedSum(sum)
    requires forall k :: 0 <= k < |sum| ==> Filled(sum[k])
    requires forall k :: 0 <= k < |sum| && !Stays(sum[k]) ==>
               Positive(sum[k], value) && value(ChunkFactors(sum[k])[FirstNumber(sum[k])]) > 1.0
    ensures KeepsValue(PrintSum(sum), value) <==> NumbersFirst(PrintSum(sum))
  {
    PrettyPrinted(sum);
    SplitPrinted(sum);
    SplitPrinted(ShiftedSum(sum));
    ChunksCompare(sum, value);
    NumbersFirstStay(sum);
  }

  lemma NumbersFirstStay(sum: Sum)
    requires WellFormedSum(sum)
    requires forall k :: 0 <= k < |sum| ==> Filled(sum[k])
    ensures NumbersFirst(PrintSum(sum)) <==> forall k :: 0 <= k < |sum| ==> Stays(sum[k])
  {
    SplitPrinted(sum);
    forall k | 0 <= k < |sum| ensures NumberFirst(ChunkTexts(sum)[k]) <==> Stays(sum[k]) {
      NumberFirstStays(sum[k]);
    }
    if NumbersFirst(PrintSum(sum)) {
      forall k | 0 <= k < |sum| ensures Stays(sum[k]) {
        assert ChunkTexts(sum)[k] in Pieces(PrintSum(sum), " + ", 0);
      }
    }
  }

  /** Numbers count double, all else once. */
  function NumbersDouble(text: string): real {
    if IsNumeric(text) then 2.0 else 1.0
  }

  lemma StayingKeepsValue(sum: Sum, value: Valuation)
    requires WellFormedSum(sum) && NumbersFirst(PrintSum(sum))
    ensures KeepsValue(PrintSum(sum), value)
  {
    PrettyPrinted(sum);
    NumbersFirstStay(sum);
    ValueKept(sum, value);
  }

  lemma NumbersDoubleShows(sum: Sum)
    requires WellFormedSum(sum)
    ensures KeepsValue(PrintSum(sum), NumbersDouble) <==> NumbersFirst(PrintSum(sum))
  {
    PrettyPrinted(sum);
    ValueKept(sum, NumbersDouble);
  }

  /** For every printed sum: pretty printing keeps its value for all values of the factors
      exactly when in every chunk the first number stands before the first minus sign. */
  lemma PrettyKeepsValueExactly(sum: Sum)
    requires WellFormedSum(sum)
    ensures AlwaysKeepsValue(PrintSum(sum)) <==> NumbersFirst(PrintSum(sum))
  {
    if NumbersFirst(PrintSum(sum)) {
      forall value: Valuation ensures KeepsValue(PrintSum(sum), value) {
        StayingKeepsValue(sum, value);
      }
    } else {
      NumbersDoubleShows(sum);
      assert !KeepsValue(PrintSum(sum), NumbersDouble);
    }
  }

  // ---- Numbers that mean themselves ----------------------------------------

  /** Digits are worth their number, and a leading minus sign negates. */
  ghost predicate Honest(value: Valuation) {
    && (forall digits :: IsDigits(digits) ==> value(digits) == Value(digits) as real)
    && (forall text :: value("-" + text) == -value(text))
  }

  ghost predicate HonestlyKeepsValue(text: string) {
    forall value: Valuation :: Honest(value) ==> KeepsValue(text, value)
  }

  /** Words are worth one. */
  function WordsOne(text: string): real {
    if text != "" && text[0] == '-' then -WordsOne(text[1..])
    else if IsDigits(text) then Value(text) as real else 1.0
  }

  lemma WordsOneHonest()
    ensures Honest(WordsOne)
  {
    forall text ensures WordsOne("-" + text) == -WordsOne(text) {
      assert ("-" + text)[1..] == text;
    }
    forall digits | IsDigits(digits) ensures WordsOne(digits) == Value(digits) as real {
      assert IsDigit(digits[0]);
    }
  }

  /** Factors without a sign, no zero among them, and no one in a longer product: what
      the printer writes after the sign of a sum. */
  predicate Magnitudes(chunk: Chunk) {
    forall j, p :: 0 <= j < |chunk| && 0 <= p < |chunk[j]| ==>
      var text := chunk[j][p].Print();
      !StartsWith(text, "-") && (IsDigits(text) ==> Value(text) > if |chunk[j]| > 1 then 1 else 0)
  }

  lemma MagnitudesPositive(chunk: Chunk)
    requires WellFormedChunk(chunk) && Filled(chunk) && Magnitudes(chunk) && !Stays(chunk)
    ensures Positive(chunk, WordsOne) && WordsOne(ChunkFactors(chunk)[FirstNumber(chunk)]) > 1.0
  {
    forall j, p | 0 <= j < |chunk| && 0 <= p < |chunk[j]| ensures WordsOne(chunk[j][p].Print()) > 0.0 {
      Unsigned(chunk[j][p].Print());
    }
    NumberPlace(chunk, FirstNumber(chunk));
    var (j, p) := Place(chunk, FirstNumber(chunk));
    if FirstNumber(chunk) == 0 {
      LaterPlace(chunk, 0);
    }
    Unsigned(chunk[j][p].Print());
  }

  lemma Unsigned(text: string)
    requires !StartsWith(text, "-")
    ensures IsNumeric(text) == IsDigits(text)
    ensures WordsOne(text) == if IsDigits(text) then Value(text) as real else 1.0
  {
    if text != "" {
      assert text[..1] == [text[0]];
    }
  }

  /** The same with numbers worth what they say: where a number is not before the minus
      sign, and no sign, zero or one interferes, some values of the other factors show
      the difference. */
  lemma PrettyKeepsNumbersExactly(sum: Sum)
    requires WellFormedSum(sum)
    requires forall k :: 0 <= k < |sum| ==> NumberFirst(PrintChunk(sum[k])) || Magnitudes(sum[k])
    ensures HonestlyKeepsValue(PrintSum(sum)) <==> NumbersFirst(PrintSum(sum))
  {
    PrettyKeepsValueExactly(sum);
    if !NumbersFirst(PrintSum(sum)) {
      WordsOneHonest();
      WordsOneShows(sum);
    }
  }

  lemma WordsOneShows(sum: Sum)
    requires WellFormedSum(sum)
    requires forall k :: 0 <= k < |sum| ==> NumberFirst(PrintChunk(sum[k])) || Magnitudes(sum[k])
    ensures KeepsValue(PrintSum(sum), WordsOne) <==> NumbersFirst(PrintSum(sum))
  {
    forall k | 0 <= k < |sum| ensures Filled(sum[k]) && (Stays(sum[k]) || Magnitudes(sum[k])) {
      NumberFirstStays(sum[k]);
    }
    forall k | 0 <= k < |sum| && !Stays(sum[k])
      ensures Positive(sum[k], WordsOne) && WordsOne(ChunkFactors(sum[k])[FirstNumber(sum[k])]) > 1.0
    {
      MagnitudesPositive(sum[k]);
    }
    ValueKept(sum, WordsOne);
  }

  // ---- A difference whose number goes astray -------------------------------

  const A := Word("a")
  const B := Word("b")
  const C := Word("c")
  const TWO := Word("2")

  const DIFFERENCE := [[A, B], [C, TWO]]
  const ASTRAY := [[TWO, A, B], [C]]

  lemma PrintOne(x: Factor)
    ensures PrintProduct([x]) == x.Print() && FactorTexts([x]) == [x.Print()]
  {
    assert FactorTexts([x]) == [x.Print()];
  }

  lemma PrintMore(x: Factor, rest: Product)
    requires rest != []
    ensures PrintProduct([x] + rest) == x.Print() + "*" + PrintProduct(rest)
  {
    var texts := FactorTexts([x] + rest);
    assert texts[1..] == FactorTexts(rest) && texts[0] == x.Print();
    assert Join("*", texts) == texts[0] + "*" + Join("*", texts[1..]);
  }

  lemma PrintDifference(left: Product, right: Product)
    ensures PrintChunk([left, right]) == PrintProduct(left) + " - " + PrintProduct(right)
    ensures PrintSum([[left, right]]) == PrintChunk([left, right])
  {
    var texts, chunks := ProductTexts([left, right]), ChunkTexts([[left, right]]);
    assert texts[1..] == [PrintProduct(right)] && texts[0] == PrintProduct(left);
    assert Join(" - ", texts) == texts[0] + " - " + Join(" - ", texts[1..]);
    assert Join(" - ", texts[1..]) == PrintProduct(right);
    assert chunks == [PrintChunk([left, right])] && Join(" + ", chunks) == chunks[0];
  }

  lemma ShiftedAstray()
    ensures Filled(DIFFERENCE) && Shifted(DIFFERENCE) == ASTRAY && !Stays(DIFFERENCE)
  {
    var pieces := ChunkFactors(DIFFERENCE);
    assert DIFFERENCE[1..] == [[C, TWO]];
    PrintOne(A);
    assert FactorTexts([A, B]) == [A.Print(), B.Print()] && FactorTexts([C, TWO]) == [C.Print(), TWO.Print()];
    assert ChunkFactors([[C, TWO]]) == FactorTexts([C, TWO]);
    assert pieces == Linked([A.Print(), B.Print()], [C.Print(), TWO.Print()]);
    assert pieces == [A.Print(), B.Print() + " - " + C.Print(), TWO.Print()];
    LinkNotNumeric(B.Print(), C.Print());
    assert !IsNumeric(A.Print()) && IsNumeric(TWO.Print());
    assert pieces[2..] == [TWO.Print()] && pieces[1..][1..] == pieces[2..];
    assert FirstNumeric(pieces[2..]) == 0 && FirstNumeric(pieces[1..]) == 1 && FirstNumber(DIFFERENCE) == 2;
    assert Alone(DIFFERENCE) == 1 && Alone(DIFFERENCE[1..]) == 2;
    assert [C, TWO][..1] + [C, TWO][2..] == [C];
    assert Chosen(DIFFERENCE[1..], 1) == TWO && Without(DIFFERENCE[1..], 1) == [[C]];
    assert Chosen(DIFFERENCE, 2) == TWO && Without(DIFFERENCE, 2) == [[A, B], [C]];
    assert [TWO] + [A, B] == [TWO, A, B];
  }

  lemma DifferenceWellFormed()
    ensures WellFormedSum([DIFFERENCE]) && Magnitudes(DIFFERENCE)
  {
    assert A.Print() == "a" && B.Print() == "b" && C.Print() == "c" && TWO.Print() == "2";
    assert !IsDigit("a"[0]) && !IsDigit("b"[0]) && !IsDigit("c"[0]) && "2"[..0] == "" && Value("2") == 2;
    assert WellFormedProduct([A, B]) && WellFormedProduct([C, TWO]);
  }

  lemma DifferencePrinted()
    ensures PrintSum([DIFFERENCE]) == "a*b - c*2"
  {
    PrintOne(B);
    PrintOne(TWO);
    PrintMore(A, [B]);
    PrintMore(C, [TWO]);
    PrintDifference([A, B], [C, TWO]);
    assert [A] + [B] == [A, B] && [C] + [TWO] == [C, TWO];
    assert PrintProduct([A, B]) == "a*b" && PrintProduct([C, TWO]) == "c*2";
  }

  lemma AstrayPrinted()
    ensures PrintSum([ASTRAY]) == "2*a*b - c"
  {
    PrintOne(B);
    PrintOne(C);
    PrintMore(A, [B]);
    PrintMore(TWO, [A, B]);
    PrintDifference([TWO, A, B], [C]);
    assert [A] + [B] == [A, B] && [TWO] + [A, B] == [TWO, A, B];
    assert PrintProduct([A, B]) == "a*b" && PrintProduct([TWO, A, B]) == "2*a*b";
  }

  /** The number of the second term is printed as one of the first. */
  lemma NumberGoesAstray()
    ensures PrintSum([DIFFERENCE]) == "a*b - c*2" && Pretty(PrintSum([DIFFERENCE])) == "2*a*b - c"
    ensures Honest(WordsOne) && !KeepsValue(PrintSum([DIFFERENCE]), WordsOne)
  {
    DifferencePrinted();
    AstrayPrinted();
    ShiftedAstray();
    DifferenceWellFormed();
    PrettyPrinted([DIFFERENCE]);
    assert ShiftedSum([DIFFERENCE]) == [ASTRAY];
    NumberFirstStays(DIFFERENCE);
    NumbersFirstStay([DIFFERENCE]);
    WordsOneHonest();
    WordsOneShows([DIFFERENCE]);
  }

  const MINUS_A := Word("-a")
  const NEGATED := [[MINUS_A], [A, TWO]]
  const REGROUPED := [[TWO, MINUS_A], [A]]

  lemma ShiftedNegated()
    ensures WellFormedSum([NEGATED]) && Filled(NEGATED) && Shifted(NEGATED) == REGROUPED && !Stays(NEGATED)
  {
    assert NEGATED[1..] == [[A, TWO]];
    PrintOne(MINUS_A);
    assert FactorTexts([A, TWO]) == [A.Print(), TWO.Print()] && ChunkFactors([[A, TWO]]) == FactorTexts([A, TWO]);
    var pieces := ChunkFactors(NEGATED);
    assert pieces == Linked([MINUS_A.Print()], [A.Print(), TWO.Print()]);
    assert pieces == [MINUS_A.Print() + " - " + A.Print(), TWO.Print()] && pieces[1..] == [TWO.Print()];
    LinkNotNumeric(MINUS_A.Print(), A.Print());
    assert IsNumeric(TWO.Print()) && FirstNumeric(pieces[1..]) == 0 && FirstNumber(NEGATED) == 1;
    assert Alone(NEGATED) == 0 && Alone(NEGATED[1..]) == 2 && [A, TWO][..1] + [A, TWO][2..] == [A];
    assert Chosen(NEGATED[1..], 1) == TWO && Chosen(NEGATED, 1) == TWO && Without(NEGATED, 1) == [[MINUS_A], [A]];
    assert [TWO] + [MINUS_A] == [TWO, MINUS_A];
    assert WellFormedProduct([MINUS_A]) && WellFormedProduct([A, TWO]);
  }

  lemma OneFactor(x: Factor, value: Valuation)
    ensures FactorsValue([x], value) == value(x.Print())
  {
    FactorsCons(x, [], value);
    assert [x] + [] == [x] && FactorTexts([]) == [];
  }

  lemma TwoFactors(x: Factor, y: Factor, value: Valuation)
    ensures FactorsValue([x, y], value) == value(x.Print()) * value(y.Print())
  {
    OneFactor(y, value);
    FactorsCons(x, [y], value);
    assert [x] + [y] == [x, y];
  }

  lemma TwoTerms(left: Product, right: Product, value: Valuation)
    requires WellFormedChunk([left, right])
    ensures TextValue(PrintSum([[left, right]]), value) == FactorsValue(left, value) - FactorsValue(right, value)
  {
    var chunk := [left, right];
    SplitPrinted([chunk]);
    PrintedChunkValue(chunk, value);
    TotalOne(right, value);
    assert chunk[1..] == [right];
    assert ChunkTexts([chunk]) == [PrintChunk(chunk)];
    OneChunk(PrintChunk(chunk), value);
  }

  lemma TotalOne(factors: Product, value: Valuation)
    ensures Total([factors], value) == FactorsValue(factors, value)
  {
    assert [factors][1..] == [];
  }

  lemma OneChunk(chunk: string, value: Valuation)
    ensures ChunksValue([chunk], value) == ChunkValue(chunk, value)
  {
    assert [chunk][1..] == [];
  }

  /** With a sign in the first term the number may leave its product without harm: when
      both terms are the same but for it, as in "-a - a*2". */
  lemma SignMayHide()
    ensures WellFormedSum([NEGATED]) && !NumbersFirst(PrintSum([NEGATED])) && HonestlyKeepsValue(PrintSum([NEGATED]))
  {
    ShiftedNegated();
    PrettyPrinted([NEGATED]);
    NumbersFirstStay([NEGATED]);
    assert ShiftedSum([NEGATED]) == [REGROUPED];
    forall value: Valuation | Honest(value) ensures KeepsValue(PrintSum([NEGATED]), value) {
      SameWorth(value);
    }
  }

  lemma SameWorth(value: Valuation)
    requires Honest(value) && WellFormedChunk(NEGATED) && WellFormedChunk(REGROUPED)
    ensures TextValue(PrintSum([REGROUPED]), value) == TextValue(PrintSum([NEGATED]), value)
  {
    TwoTerms([MINUS_A], [A, TWO], value);
    TwoTerms([TWO, MINUS_A], [A], value);
    WorthBefore(value);
    WorthAfter(value);
  }

  lemma WorthBefore(value: Valuation)
    requires Honest(value)
    ensures FactorsValue([MINUS_A], value) - FactorsValue([A, TWO], value) == -3.0 * value(A.Print())
  {
    OneFactor(MINUS_A, value);
    TwoFactors(A, TWO, value);
    TwoWorthTwo(value);
  }

  lemma WorthAfter(value: Valuation)
    requires Honest(value)
    ensures FactorsValue([TWO, MINUS_A], value) - FactorsValue([A], value) == -3.0 * value(A.Print())
  {
    OneFactor(A, value);
    TwoFactors(TWO, MINUS_A, value);
    TwoWorthTwo(value);
  }

  lemma TwoWorthTwo(value: Valuation)
    requires Honest(value)
    ensures value(TWO.Print()) == 2.0 && value(MINUS_A.Print()) == -value(A.Print())
  {
    assert "-" + "a" == "-a";
    assert "2"[..0] == "" && Value("2") == 2 && IsDigits("2");
  }
}
