/** Blanking the comments of host-language files. Which marks start a comment depends
    on the file's suffix; strings are kept, and comment marks in them mean nothing. */
module HostScanner {
  import opened ScannedText

  /** The comment marks of a language. */
  datatype Marks = Marks(hash: bool, bang: bool, c: bool)

  function MarksOf(suffix: string): Marks {
    Marks(
      suffix in {".bash", ".cmake", ".csh", ".mk", ".pl", ".py", ".sh", ".toml", ".yaml", ".yml", ".zsh"},
      suffix in {".f", ".f03", ".f08", ".f90", ".f95"},
      suffix in {".c", ".cc", ".cpp", ".h", ".hpp"})
  }

  // ---- The grammar ---------------------------------------------------------

  predicate IsQuote(c: char) {
    c == '\'' || c == '"'
  }

  predicate PairAt(text: string, i: nat, first: char, second: char) {
    i + 1 < |text| && text[i] == first && text[i + 1] == second
  }

  predicate BlockAt(text: string, i: nat, marks: Marks) {
    marks.c && PairAt(text, i, '/', '*')
  }

  predicate LineAt(text: string, i: nat, marks: Marks)
    requires i < |text|
  {
    || (marks.c && PairAt(text, i, '/', '/'))
    || (marks.hash && text[i] == '#')
    || (marks.bang && text[i] == '!')
  }

  /** The end of the block comment that is open at `i`; these do not nest. */
  function BlockEnd(text: string, i: nat): (end: End)
    requires i <= |text|
    ensures end.At? ==> i + 2 <= end.index <= |text|
    decreases |text| - i
  {
    if i + 1 >= |text| then Unclosed
    else if PairAt(text, i, '*', '/') then At(i + 2)
    else BlockEnd(text, i + 1)
  }

  /** The first closing mark closes. */
  lemma {:induction false} BlockEndIsFirst(text: string, i: nat)
    requires i <= |text|
    ensures match BlockEnd(text, i)
            case At(n) => PairAt(text, n - 2, '*', '/') && forall k :: i <= k < n - 2 ==> !PairAt(text, k, '*', '/')
            case Unclosed => forall k :: i <= k ==> !PairAt(text, k, '*', '/')
    decreases |text| - i
  {
    if i + 1 < |text| && !PairAt(text, i, '*', '/') {
      BlockEndIsFirst(text, i + 1);
    }
  }

  /** The newline that ends the line of `i`, or the end of the text. */
  function LineEnd(text: string, i: nat): (end: nat)
    requires i <= |text|
    ensures i <= end <= |text|
    decreases |text| - i
  {
    if i == |text| || text[i] == '\n' then i else LineEnd(text, i + 1)
  }

  lemma {:induction false} LineEndIsFirst(text: string, i: nat)
    requires i <= |text|
    ensures LineEnd(text, i) < |text| ==> text[LineEnd(text, i)] == '\n'
    ensures forall k :: i <= k < LineEnd(text, i) ==> text[k] != '\n'
    decreases |text| - i
  {
    if i < |text| && text[i] != '\n' {
      LineEndIsFirst(text, i + 1);
    }
  }

  /** Where the item of code at `i` ends: a string, a comment or one character. */
  function Next(text: string, i: nat, marks: Marks): (n: nat)
    requires i < |text|
    ensures i < n <= |text|
  {
    if IsQuote(text[i]) then StringEnd(text, i + 1, text[i]).In(text)
    else if BlockAt(text, i, marks) then BlockEnd(text, i + 2).In(text)
    else if LineAt(text, i, marks) then LineEnd(text, i + 1)
    else i + 1
  }

  /** That item, stripped: only comments are blanked. */
  function Item(text: string, i: nat, marks: Marks): (item: string)
    requires i < |text|
    ensures |item| == Next(text, i, marks) - i
  {
    if !IsQuote(text[i]) && (BlockAt(text, i, marks) || LineAt(text, i, marks))
    then Blanks(text, i, Next(text, i, marks))
    else text[i..Next(text, i, marks)]
  }

  function Code(text: string, i: nat, marks: Marks): (stripped: string)
    requires i <= |text|
    ensures |stripped| == |text| - i
    decreases |text| - i
  {
    if i == |text| then "" else Item(text, i, marks) + Code(text, Next(text, i, marks), marks)
  }

  function Stripped(text: string, suffix: string): string {
    Code(text, 0, MarksOf(suffix))
  }

  // ---- The scanner ---------------------------------------------------------

  /** What the scanner has still to write: the rest of a block comment, of a string,
      or code. An empty quote means that it is not in a string. */
  function Pending(text: string, i: nat, marks: Marks, block: bool, quote: string, escaped: bool): string
    requires i <= |text| && |quote| <= 1
  {
    if block then
      var n := BlockEnd(text, i).In(text);
      Blanks(text, i, n) + Code(text, n, marks)
    else if quote != "" then
      var n := Quoted(text, i, quote[0], escaped);
      text[i..n] + Code(text, n, marks)
    else Code(text, i, marks)
  }

  lemma BlockSkips(text: string, i: nat, j: nat, n: nat, marks: Marks)
    requires i <= j <= n <= |text|
    ensures Blanks(text, i, n) + Code(text, n, marks) ==
            Blanks(text, i, j) + (Blanks(text, j, n) + Code(text, n, marks))
  {
    BlanksSplit(text, i, j, n);
    Joined(Blanks(text, i, j), Blanks(text, j, n), Code(text, n, marks));
  }

  lemma KeptSkips(text: string, i: nat, n: nat, marks: Marks)
    requires i < n <= |text|
    ensures text[i..n] + Code(text, n, marks) == [text[i]] + (text[i + 1..n] + Code(text, n, marks))
  {
    assert text[i..n] == [text[i]] + text[i + 1..n];
    Joined([text[i]], text[i + 1..n], Code(text, n, marks));
  }

  lemma TwoBlanked(text: string, i: nat)
    requires i + 1 < |text| && text[i] != '\n' && text[i + 1] != '\n'
    ensures Blanks(text, i, i + 2) == "  "
  {}

  lemma BlockCloses(text: string, i: nat, marks: Marks)
    requires PairAt(text, i, '*', '/')
    ensures Pending(text, i, marks, true, "", false) == "  " + Pending(text, i + 2, marks, false, "", false)
  {
    TwoBlanked(text, i);
  }

  lemma BlockContinues(text: string, i: nat, marks: Marks)
    requires i < |text| && !PairAt(text, i, '*', '/')
    ensures Pending(text, i, marks, true, "", false) == [Blank(text[i])] + Pending(text, i + 1, marks, true, "", false)
  {
    BlockSkips(text, i, i + 1, BlockEnd(text, i).In(text), marks);
    assert Blanks(text, i, i + 1) == [Blank(text[i])];
  }

  lemma StringContinues(text: string, i: nat, marks: Marks, quote: char, escaped: bool)
    requires i < |text| && quote != '\\' && (escaped || text[i] != quote)
    ensures Pending(text, i, marks, false, [quote], escaped) ==
            [text[i]] + Pending(text, i + 1, marks, false, [quote], !escaped && text[i] == '\\')
  {
    KeptSkips(text, i, Quoted(text, i, quote, escaped), marks);
  }

  lemma StringCloses(text: string, i: nat, marks: Marks, quote: char)
    requires i < |text| && text[i] == quote
    ensures Pending(text, i, marks, false, [quote], false) ==
            [text[i]] + Pending(text, i + 1, marks, false, "", false)
  {
    assert text[i..i + 1] == [text[i]];
  }

  lemma QuoteOpens(text: string, i: nat, marks: Marks)
    requires i < |text| && IsQuote(text[i])
    ensures Pending(text, i, marks, false, "", false) ==
            [text[i]] + Pending(text, i + 1, marks, false, [text[i]], false)
  {
    KeptSkips(text, i, Next(text, i, marks), marks);
  }

  lemma BlockOpens(text: string, i: nat, marks: Marks)
    requires BlockAt(text, i, marks)
    ensures Pending(text, i, marks, false, "", false) == "  " + Pending(text, i + 2, marks, true, "", false)
  {
    BlockSkips(text, i, i + 2, Next(text, i, marks), marks);
    TwoBlanked(text, i);
  }

  function Spaces(n: nat): string {
    if n == 0 then "" else " " + Spaces(n - 1)
  }

  lemma {:induction false} LineBlanked(text: string, i: nat, n: nat)
    requires i <= n <= |text| && forall k :: i <= k < n ==> text[k] != '\n'
    ensures Blanks(text, i, n) == Spaces(n - i)
    decreases n - i
  {
    if i < n {
      LineBlanked(text, i + 1, n);
    }
  }

  lemma LineSkips(text: string, i: nat, marks: Marks)
    requires i < |text| && !IsQuote(text[i]) && !BlockAt(text, i, marks) && LineAt(text, i, marks)
    ensures var n := LineEnd(text, i);
            && i < n
            && Pending(text, i, marks, false, "", false) == Spaces(n - i) + Pending(text, n, marks, false, "", false)
  {
    assert text[i] != '\n';
    LineEndIsFirst(text, i);
    LineBlanked(text, i, LineEnd(text, i + 1));
  }

  lemma CodeCopies(text: string, i: nat, marks: Marks)
    requires i < |text| && !IsQuote(text[i]) && !BlockAt(text, i, marks) && !LineAt(text, i, marks)
    ensures Pending(text, i, marks, false, "", false) == [text[i]] + Pending(text, i + 1, marks, false, "", false)
  {
    assert text[i..i + 1] == [text[i]];
  }

  /** Python's `text.find("\n", i)`. */
  function FindNewline(text: string, i: nat): int
    requires i <= |text|
  {
    if LineEnd(text, i) == |text| then -1 else LineEnd(text, i)
  }

  /** The flags recognise exactly the grammar of the suffix. */
  method Strip(text: string, suffix: string) returns (output: string)
    ensures output == Stripped(text, suffix)
  {
    output := StripMarked(text, MarksOf(suffix));
  }

  method StripMarked(text: string, marks: Marks) returns (output: string)
    ensures output == Code(text, 0, marks)
  {
    output := "";
    var index, quoteCharacter, escaped, blockComment := 0, "", false, false;
    ghost var pending := Code(text, 0, marks);
    while index < |text|
      invariant 0 <= index <= |text| && |quoteCharacter| <= 1
      invariant quoteCharacter != "" ==> quoteCharacter != "\\" && !blockComment
      invariant quoteCharacter == "" ==> !escaped
      invariant pending == Pending(text, index, marks, blockComment, quoteCharacter, escaped)
      invariant output + pending == Code(text, 0, marks)
    {
      var written;
      if blockComment {
        written, index, blockComment := InBlock(text, index, marks);
      } else if quoteCharacter != "" {
        written, quoteCharacter, escaped := InString(text, index, marks, quoteCharacter[0], escaped);
        index := index + 1;
      } else {
        written, index, quoteCharacter, blockComment := InCode(text, index, marks);
      }
      ghost var more := Pending(text, index, marks, blockComment, quoteCharacter, escaped);
      Joined(output, written, more);
      output := output + written;
      pending := more;
    }
  }

  /** One turn in a block comment. */
  method InBlock(text: string, index: nat, marks: Marks) returns (written: string, next: nat, blockComment: bool)
    requires index < |text|
    ensures index < next <= |text|
    ensures Pending(text, index, marks, true, "", false) ==
            written + Pending(text, next, marks, blockComment, "", false)
  {
    if PairAt(text, index, '*', '/') {
      BlockCloses(text, index, marks);
      return "  ", index + 2, false;
    }
    BlockContinues(text, index, marks);
    return [if text[index] == '\n' then '\n' else ' '], index + 1, true;
  }

  /** One turn in a string: its character is kept. */
  method InString(text: string, index: nat, marks: Marks, quote: char, escaped: bool)
    returns (written: string, quoteCharacter: string, escapes: bool)
    requires index < |text| && quote != '\\'
    ensures quoteCharacter == [quote] || (quoteCharacter == "" && !escapes)
    ensures Pending(text, index, marks, false, [quote], escaped) ==
            written + Pending(text, index + 1, marks, false, quoteCharacter, escapes)
  {
    var character := text[index];
    written, quoteCharacter, escapes := [character], [quote], escaped;
    if escaped {
      escapes := false;
    } else if character == '\\' {
      escapes := true;
    } else if character == quote {
      quoteCharacter := "";
    }
    if !escaped && character == quote {
      StringCloses(text, index, marks, quote);
    } else {
      StringContinues(text, index, marks, quote, escaped);
    }
  }

  /** One turn in code: it may enter a string or a block comment, or skip to a line's end. */
  method InCode(text: string, index: nat, marks: Marks)
    returns (written: string, next: nat, quoteCharacter: string, blockComment: bool)
    requires index < |text|
    ensures index < next <= |text| && |quoteCharacter| <= 1
    ensures quoteCharacter != "" ==> quoteCharacter != "\\" && !blockComment
    ensures Pending(text, index, marks, false, "", false) ==
            written + Pending(text, next, marks, blockComment, quoteCharacter, false)
  {
    var character := text[index];
    if IsQuote(character) {
      QuoteOpens(text, index, marks);
      return [character], index + 1, [character], false;
    }
    if BlockAt(text, index, marks) {
      BlockOpens(text, index, marks);
      return "  ", index + 2, "", true;
    }
    if LineAt(text, index, marks) {
      LineSkips(text, index, marks);
      var newline := FindNewline(text, index);
      next := if newline == -1 then |text| else newline;
      return Spaces(next - index), next, "", false;
    }
    CodeCopies(text, index, marks);
    return [character], index + 1, "", false;
  }

  // ---- What stripping keeps ------------------------------------------------

  lemma {:induction false} CodeKeepsLayout(text: string, i: nat, marks: Marks)
    requires i <= |text|
    ensures KeepsLayout(text[i..], Code(text, i, marks))
    decreases |text| - i
  {
    if i < |text| {
      var n := Next(text, i, marks);
      CodeKeepsLayout(text, n, marks);
      ItemKeepsLayout(text, i, marks);
      LayoutJoined(text[i..n], Item(text, i, marks), text[n..], Code(text, n, marks));
      assert text[i..] == text[i..n] + text[n..];
    }
  }

  lemma ItemKeepsLayout(text: string, i: nat, marks: Marks)
    requires i < |text|
    ensures KeepsLayout(text[i..Next(text, i, marks)], Item(text, i, marks))
  {
    BlanksAt(text, i, Next(text, i, marks));
  }

  lemma StripKeepsLayout(text: string, suffix: string)
    ensures KeepsLayout(text, Stripped(text, suffix))
  {
    CodeKeepsLayout(text, 0, MarksOf(suffix));
    assert text[0..] == text;
  }

  predicate AllBlank(text: string, i: nat, n: nat) {
    n <= |text| && forall k :: i <= k < n ==> text[k] == ' ' || text[k] == '\n'
  }

  lemma {:induction false} BlankIsCopied(text: string, i: nat, n: nat, marks: Marks)
    requires i <= n && AllBlank(text, i, n)
    ensures Code(text, i, marks) == text[i..n] + Code(text, n, marks)
    decreases n - i
  {
    if i < n {
      BlankIsCopied(text, i + 1, n, marks);
      CodeCopies(text, i, marks);
      KeptSkips(text, i, n, marks);
    }
  }

  /** The item of the stripped text where a string or a character of code was kept. */
  lemma KeptItemIsKept(text: string, out: string, i: nat, marks: Marks)
    requires i < |text| == |out| && out[i..] == Code(text, i, marks)
    requires IsQuote(text[i]) || !(BlockAt(text, i, marks) || LineAt(text, i, marks))
    ensures var n := Next(text, i, marks); Next(out, i, marks) == n && Item(out, i, marks) == out[i..n]
  {
    var n := Next(text, i, marks);
    KeptCharacters(text, out, i, marks);
    if IsQuote(text[i]) {
      if StringEnd(text, i + 1, text[i]).At? {
        StringEndLocal(text, out, i + 1, text[i]);
      } else {
        StringEndSuffix(text, out, i + 1, text[i]);
      }
    } else if i + 1 < |text| {
      CodeKeepsLayout(text, i + 1, marks);
      assert out[i..][1] == out[i + 1] && Code(text, i, marks)[1] == Code(text, i + 1, marks)[0];
      assert text[i + 1..][0] == text[i + 1];
      assert out[i + 1] == text[i + 1] || out[i + 1] == ' ';
    }
  }

  lemma KeptCharacters(text: string, out: string, i: nat, marks: Marks)
    requires i < |text| == |out| && out[i..] == Code(text, i, marks)
    requires IsQuote(text[i]) || !(BlockAt(text, i, marks) || LineAt(text, i, marks))
    ensures Agree(text, out, i, Next(text, i, marks))
  {
    forall k | i <= k < Next(text, i, marks) ensures text[k] == out[k] {
      assert out[k] == out[i..][k - i] == Item(text, i, marks)[k - i];
    }
  }

  lemma {:induction false} StableFrom(text: string, out: string, i: nat, marks: Marks)
    requires i <= |text| == |out| && out[i..] == Code(text, i, marks)
    ensures Code(out, i, marks) == out[i..]
    decreases |text| - i
  {
    if i < |text| {
      var n := Next(text, i, marks);
      assert out[n..] == Code(text, n, marks) by {
        assert out[n..] == out[i..][n - i..];
      }
      StableFrom(text, out, n, marks);
      StableStep(text, out, i, marks);
    }
  }

  lemma StableStep(text: string, out: string, i: nat, marks: Marks)
    requires i < |text| == |out| && out[i..] == Code(text, i, marks)
    requires Code(out, Next(text, i, marks), marks) == out[Next(text, i, marks)..]
    ensures Code(out, i, marks) == out[i..]
  {
    var n := Next(text, i, marks);
    assert out[i..] == out[i..n] + out[n..];
    if IsQuote(text[i]) || !(BlockAt(text, i, marks) || LineAt(text, i, marks)) {
      KeptItemIsKept(text, out, i, marks);
    } else {
      ItemIsBlank(text, out, i, marks);
      BlankIsCopied(out, i, n, marks);
    }
  }

  lemma ItemIsBlank(text: string, out: string, i: nat, marks: Marks)
    requires i < |text| == |out| && out[i..] == Code(text, i, marks)
    requires !IsQuote(text[i]) && (BlockAt(text, i, marks) || LineAt(text, i, marks))
    ensures AllBlank(out, i, Next(text, i, marks))
  {
    var n := Next(text, i, marks);
    BlanksAt(text, i, n);
    forall k | i <= k < n ensures out[k] == ' ' || out[k] == '\n' {
      assert out[k] == out[i..][k - i] == Item(text, i, marks)[k - i] == Blank(text[i + (k - i)]);
    }
  }

  /** Stripping stripped text of the same suffix changes nothing. */
  lemma StripTwice(text: string, suffix: string)
    ensures Stripped(Stripped(text, suffix), suffix) == Stripped(text, suffix)
  {
    var out := Stripped(text, suffix);
    assert out[0..] == out;
    StableFrom(text, out, 0, MarksOf(suffix));
  }

  // ---- What stripping does, piece by piece ---------------------------------

  lemma {:induction false} BlockEndShifted(whole: string, rest: string, offset: nat, i: nat)
    requires Follows(whole, rest, offset) && i <= |rest|
    ensures BlockEnd(whole, offset + i) == Later(BlockEnd(rest, i), offset)
    decreases |rest| - i
  {
    if i + 1 < |rest| && !PairAt(rest, i, '*', '/') {
      BlockEndShifted(whole, rest, offset, i + 1);
    }
  }

  lemma {:induction false} LineEndShifted(whole: string, rest: string, offset: nat, i: nat)
    requires Follows(whole, rest, offset) && i <= |rest|
    ensures LineEnd(whole, offset + i) == offset + LineEnd(rest, i)
    decreases |rest| - i
  {
    if i < |rest| && rest[i] != '\n' {
      LineEndShifted(whole, rest, offset, i + 1);
    }
  }

  lemma NextShifted(whole: string, rest: string, offset: nat, i: nat, marks: Marks)
    requires Follows(whole, rest, offset) && i < |rest|
    ensures Next(whole, offset + i, marks) == offset + Next(rest, i, marks)
    ensures BlockAt(whole, offset + i, marks) == BlockAt(rest, i, marks)
    ensures LineAt(whole, offset + i, marks) == LineAt(rest, i, marks)
  {
    var at := offset + i;
    assert whole[at] == rest[i] && (at + 1 < |whole| ==> whole[at + 1] == rest[i + 1]);
    if IsQuote(rest[i]) {
      StringEndShifted(whole, rest, offset, i + 1, rest[i]);
    } else if BlockAt(rest, i, marks) {
      BlockEndShifted(whole, rest, offset, i + 2);
    } else {
      LineEndShifted(whole, rest, offset, i + 1);
    }
  }

  lemma ItemShifted(whole: string, rest: string, offset: nat, i: nat, marks: Marks)
    requires Follows(whole, rest, offset) && i < |rest|
    ensures Next(whole, offset + i, marks) == offset + Next(rest, i, marks)
    ensures Item(whole, offset + i, marks) == Item(rest, i, marks)
  {
    NextShifted(whole, rest, offset, i, marks);
    BlanksShifted(whole, rest, offset, i, Next(rest, i, marks));
    SliceShifted(whole, rest, offset, i, Next(rest, i, marks));
  }

  lemma SliceShifted(whole: string, rest: string, offset: nat, i: nat, n: nat)
    requires Follows(whole, rest, offset) && i <= n <= |rest|
    ensures whole[offset + i..offset + n] == rest[i..n]
  {
    forall k | 0 <= k < n - i ensures whole[offset + i..offset + n][k] == rest[i..n][k] {
      assert whole[offset..][i + k] == rest[i + k];
    }
  }

  lemma SameItem(a: string, b: string, i: nat, j: nat, n: nat, m: nat, marks: Marks)
    requires i < |a| && j < |b| && Next(a, i, marks) == n && Next(b, j, marks) == m
    requires Item(a, i, marks) == Item(b, j, marks) && Code(a, n, marks) == Code(b, m, marks)
    ensures Code(a, i, marks) == Code(b, j, marks)
  {}

  lemma ItemAlike(whole: string, rest: string, offset: nat, i: nat, j: nat, marks: Marks)
    requires Follows(whole, rest, offset) && i < |rest| && j == offset + i
    ensures Next(whole, j, marks) == offset + Next(rest, i, marks) && Item(whole, j, marks) == Item(rest, i, marks)
  {
    ItemShifted(whole, rest, offset, i, marks);
  }

  lemma {:induction false} CodeAlike(whole: string, rest: string, offset: nat, i: nat, j: nat, marks: Marks)
    requires Follows(whole, rest, offset) && i <= |rest| && j == offset + i
    ensures Code(whole, j, marks) == Code(rest, i, marks)
    decreases |rest| - i
  {
    if i < |rest| {
      var n, m := Next(rest, i, marks), Next(whole, j, marks);
      ItemAlike(whole, rest, offset, i, j, marks);
      CodeAlike(whole, rest, offset, n, m, marks);
      SameItem(whole, rest, j, i, m, n, marks);
    }
  }

  /** What stands before code does not matter. */
  lemma CodeShifted(front: string, rest: string, marks: Marks)
    ensures Code(front + rest, |front|, marks) == Code(rest, 0, marks)
  {
    Following(front, rest);
    CodeAlike(front + rest, rest, |front|, 0, |front|, marks);
  }

  /** A first item followed by the rest. */
  lemma FirstItem(first: string, rest: string, item: string, marks: Marks)
    requires first != "" && Next(first + rest, 0, marks) == |first| && Item(first + rest, 0, marks) == item
    ensures Code(first + rest, 0, marks) == item + Code(rest, 0, marks)
  {
    CodeShifted(first, rest, marks);
  }

  /** A line comment up to the newline. */
  lemma LineItem(mark: string, comment: string, rest: string, marks: Marks)
    requires mark != "" && '\n' !in mark && '\n' !in comment && (rest != "" ==> rest[0] == '\n')
    requires var text := mark + comment + rest;
             !IsQuote(text[0]) && !BlockAt(text, 0, marks) && LineAt(text, 0, marks)
    ensures Code(mark + comment + rest, 0, marks) == Spaces(|mark| + |comment|) + Code(rest, 0, marks)
  {
    var first, text := mark + comment, mark + comment + rest;
    LineEndIsFirst(text, 1);
    assert forall k :: 0 <= k < |first| ==> text[k] != '\n';
    assert text[|first|..] == rest;
    assert LineEnd(text, 1) == |first|;
    LineBlanked(text, 0, |first|);
    FirstItem(first, rest, Spaces(|first|), marks);
  }

  lemma BangMark(suffix: string)
    requires suffix in {".f", ".f03", ".f08", ".f90", ".f95"}
    ensures MarksOf(suffix).bang
  {}

  lemma SlashMark(suffix: string)
    requires suffix in {".c", ".cc", ".cpp", ".h", ".hpp"}
    ensures MarksOf(suffix).c
  {}

  lemma BangItem(comment: string, rest: string, marks: Marks)
    requires marks.bang && '\n' !in comment && (rest != "" ==> rest[0] == '\n')
    ensures Code("!" + comment + rest, 0, marks) == Spaces(1 + |comment|) + Code(rest, 0, marks)
  {
    LineItem("!", comment, rest, marks);
  }

  lemma SlashItem(comment: string, rest: string, marks: Marks)
    requires marks.c && '\n' !in comment && (rest != "" ==> rest[0] == '\n')
    ensures Code("//" + comment + rest, 0, marks) == Spaces(2 + |comment|) + Code(rest, 0, marks)
  {
    LineItem("//", comment, rest, marks);
  }

  lemma HashMark(suffix: string)
    requires suffix in {".bash", ".cmake", ".csh", ".mk", ".pl", ".py", ".sh", ".toml", ".yaml", ".yml", ".zsh"}
    ensures MarksOf(suffix).hash
  {}

  lemma HashItem(comment: string, rest: string, marks: Marks)
    requires marks.hash && '\n' !in comment && (rest != "" ==> rest[0] == '\n')
    ensures Code("#" + comment + rest, 0, marks) == Spaces(1 + |comment|) + Code(rest, 0, marks)
  {
    LineItem("#", comment, rest, marks);
  }

  /** In a shell, Python or similar file, '#' blanks to the end of the line. */
  lemma HashLine(suffix: string, comment: string, rest: string)
    requires suffix in {".bash", ".cmake", ".csh", ".mk", ".pl", ".py", ".sh", ".toml", ".yaml", ".yml", ".zsh"}
    requires '\n' !in comment && (rest != "" ==> rest[0] == '\n')
    ensures Stripped("#" + comment + rest, suffix) == Spaces(1 + |comment|) + Stripped(rest, suffix)
  {
    HashMark(suffix);
    HashItem(comment, rest, MarksOf(suffix));
  }

  /** In a Fortran file, '!' does. */
  lemma BangLine(suffix: string, comment: string, rest: string)
    requires suffix in {".f", ".f03", ".f08", ".f90", ".f95"}
    requires '\n' !in comment && (rest != "" ==> rest[0] == '\n')
    ensures Stripped("!" + comment + rest, suffix) == Spaces(1 + |comment|) + Stripped(rest, suffix)
  {
    BangMark(suffix);
    BangItem(comment, rest, MarksOf(suffix));
  }

  /** In a C or C++ file, a double slash does. */
  lemma SlashLine(suffix: string, comment: string, rest: string)
    requires suffix in {".c", ".cc", ".cpp", ".h", ".hpp"}
    requires '\n' !in comment && (rest != "" ==> rest[0] == '\n')
    ensures Stripped("//" + comment + rest, suffix) == Spaces(2 + |comment|) + Stripped(rest, suffix)
  {
    SlashMark(suffix);
    SlashItem(comment, rest, MarksOf(suffix));
  }

  lemma BlockEndsAt(inside: string, rest: string)
    requires forall k :: 0 <= k < |inside| ==> !PairAt(inside + "*/", k, '*', '/')
    ensures BlockEnd("/*" + inside + "*/" + rest, 2) == At(|inside| + 4)
  {
    var text, n := "/*" + inside + "*/" + rest, |inside| + 2;
    BlockEndIsFirst(text, 2);
    assert PairAt(text, n, '*', '/');
    forall k | 2 <= k < n ensures !PairAt(text, k, '*', '/') {
      assert !PairAt(inside + "*/", k - 2, '*', '/');
    }
  }

  lemma BlockItem(inside: string, rest: string, marks: Marks)
    requires marks.c && forall k :: 0 <= k < |inside| ==> !PairAt(inside + "*/", k, '*', '/')
    ensures Code("/*" + inside + "*/" + rest, 0, marks) ==
            Blanked("/*" + inside + "*/") + Code(rest, 0, marks)
  {
    var first := "/*" + inside + "*/";
    BlockEndsAt(inside, rest);
    BlanksWithin(first, rest);
    FirstItem(first, rest, Blanked(first), marks);
  }

  /** In a C or C++ file a block comment is blanked up to its first closing mark. */
  lemma BlockComment(suffix: string, inside: string, rest: string)
    requires suffix in {".c", ".cc", ".cpp", ".h", ".hpp"}
    requires forall k :: 0 <= k < |inside| ==> !PairAt(inside + "*/", k, '*', '/')
    ensures Stripped("/*" + inside + "*/" + rest, suffix) ==
            Blanked("/*" + inside + "*/") + Stripped(rest, suffix)
  {
    BlockItem(inside, rest, MarksOf(suffix));
  }

  /** One that is never closed takes the rest. */
  lemma OpenBlockComment(suffix: string, inside: string)
    requires suffix in {".c", ".cc", ".cpp", ".h", ".hpp"}
    requires forall k :: 0 <= k < |inside| - 1 ==> !PairAt(inside, k, '*', '/')
    ensures Stripped("/*" + inside, suffix) == Blanked("/*" + inside)
  {
    var text := "/*" + inside;
    BlockEndIsFirst(text, 2);
    forall k | 2 <= k ensures !PairAt(text, k, '*', '/') {
      assert k + 1 < |text| ==> !PairAt(inside, k - 2, '*', '/');
    }
    BlanksWithin(text, "");
    assert text + "" == text;
    FirstItem(text, "", Blanked(text), MarksOf(suffix));
  }

  /** A string is kept, whatever it holds. */
  lemma StringKept(suffix: string, quote: char, body: string, rest: string)
    requires quote in {'\'', '"'} && IsBody(body, quote)
    ensures var literal := [quote] + body + [quote];
            Stripped(literal + rest, suffix) == literal + Stripped(rest, suffix)
  {
    var literal := [quote] + body + [quote];
    BodyEnds(body, rest, quote);
    StringEndAfter([quote], body + [quote] + rest, 0, quote);
    assert literal + rest == [quote] + (body + [quote] + rest);
    FirstItem(literal, rest, literal, MarksOf(suffix));
  }

  /** So is one that never ends. */
  lemma OpenStringKept(suffix: string, quote: char, body: string)
    requires quote in {'\'', '"'} && IsBody(body, quote)
    ensures Stripped([quote] + body, suffix) == [quote] + body
  {
    OpenBody(body, quote);
    StringEndAfter([quote], body, 0, quote);
    assert [quote] + body + "" == [quote] + body;
    FirstItem([quote] + body, "", [quote] + body, MarksOf(suffix));
  }

  /** So is every other character that starts no comment in a file of this kind. */
  lemma CharacterKept(suffix: string, c: char, rest: string)
    requires c !in {'\'', '"'}
    requires suffix in {".bash", ".cmake", ".csh", ".mk", ".pl", ".py", ".sh", ".toml", ".yaml", ".yml", ".zsh"} ==>
               c != '#'
    requires suffix in {".f", ".f03", ".f08", ".f90", ".f95"} ==> c != '!'
    requires suffix in {".c", ".cc", ".cpp", ".h", ".hpp"} && c == '/' && rest != "" ==> rest[0] !in {'/', '*'}
    ensures Stripped([c] + rest, suffix) == [c] + Stripped(rest, suffix)
  {
    FirstItem([c], rest, [c], MarksOf(suffix));
  }

  /** Text without quotes and without the marks of its kind stays as it is. */
  lemma {:induction false} TextKept(text: string, suffix: string)
    requires '\'' !in text && '"' !in text
    requires suffix in {".bash", ".cmake", ".csh", ".mk", ".pl", ".py", ".sh", ".toml", ".yaml", ".yml", ".zsh"} ==>
               '#' !in text
    requires suffix in {".f", ".f03", ".f08", ".f90", ".f95"} ==> '!' !in text
    requires suffix in {".c", ".cc", ".cpp", ".h", ".hpp"} ==>
               forall k :: 0 <= k < |text| - 1 ==> text[k] != '/' || text[k + 1] !in {'/', '*'}
    ensures Stripped(text, suffix) == text
  {
    if text != "" {
      TextKept(text[1..], suffix);
      CharacterKept(suffix, text[0], text[1..]);
      assert text == [text[0]] + text[1..];
    }
  }
}
