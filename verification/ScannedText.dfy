/** What the two source scanners share: how strings with escapes end, and blanking
    that keeps the lines of a text. Positions are indices into the whole text. */
module ScannedText {

  /** Where a comment or string ends: before an index, or nowhere. */
  datatype End = At(index: nat) | Unclosed {
    /** An unclosed one takes the rest of the text. */
    function In(text: string): nat {
      match this
      case At(n) => n
      case Unclosed => |text|
    }
  }

  /** The end of the string that the scanner is in at `i`. */
  function StringEnd(text: string, i: nat, quote: char): (end: End)
    requires i <= |text|
    ensures end.At? ==> i < end.index <= |text|
    decreases |text| - i
  {
    if i == |text| then Unclosed
    else if text[i] == quote then At(i + 1)
    else if text[i] != '\\' then StringEnd(text, i + 1, quote)
    else if i + 1 == |text| then Unclosed
    else StringEnd(text, i + 2, quote)
  }

  /** The same, with the escape flag of the scanner: an escaped character is skipped. */
  function Quoted(text: string, i: nat, quote: char, escaped: bool): (end: nat)
    requires i <= |text|
    ensures i <= end <= |text|
  {
    if !escaped then StringEnd(text, i, quote).In(text)
    else if i == |text| then i
    else StringEnd(text, i + 1, quote).In(text)
  }

  predicate Agree(a: string, b: string, from: nat, to: nat) {
    to <= |a| && to <= |b| && forall i :: from <= i < to ==> a[i] == b[i]
  }

  /** A closed string is closed by its own characters. */
  lemma {:induction false} StringEndLocal(a: string, b: string, i: nat, quote: char)
    requires i <= |a| && StringEnd(a, i, quote).At? && Agree(a, b, i, StringEnd(a, i, quote).index)
    ensures StringEnd(b, i, quote) == StringEnd(a, i, quote)
    decreases |a| - i
  {
    if a[i] == quote {
    } else if a[i] != '\\' {
      StringEndLocal(a, b, i + 1, quote);
    } else {
      StringEndLocal(a, b, i + 2, quote);
    }
  }

  lemma StringEndSuffix(a: string, b: string, i: nat, quote: char)
    requires i <= |a| == |b| && Agree(a, b, i, |a|)
    ensures StringEnd(a, i, quote) == StringEnd(b, i, quote)
  {
    if StringEnd(a, i, quote).At? {
      StringEndLocal(a, b, i, quote);
    } else if StringEnd(b, i, quote).At? {
      StringEndLocal(b, a, i, quote);
    }
  }

  function Later(end: End, n: nat): End {
    match end
    case At(index) => At(n + index)
    case Unclosed => Unclosed
  }

  /** The text ends with the rest, which starts at `by`. */
  predicate Follows(whole: string, rest: string, offset: nat) {
    offset <= |whole| && whole[offset..] == rest
  }

  /** What stands before does not matter. */
  lemma {:induction false} StringEndShifted(whole: string, rest: string, offset: nat, i: nat, quote: char)
    requires Follows(whole, rest, offset) && i <= |rest|
    ensures StringEnd(whole, offset + i, quote) == Later(StringEnd(rest, i, quote), offset)
    decreases |rest| - i
  {
    if i < |rest| {
      assert whole[offset + i] == rest[i];
      if rest[i] != quote {
        StringEndShifted(whole, rest, offset, if rest[i] != '\\' || i + 1 == |rest| then i + 1 else i + 2, quote);
      }
    }
  }

  lemma Following(front: string, rest: string)
    ensures Follows(front + rest, rest, |front|)
  {}

  lemma StringEndAfter(front: string, rest: string, i: nat, quote: char)
    requires i <= |rest|
    ensures StringEnd(front + rest, |front| + i, quote) == Later(StringEnd(rest, i, quote), |front|)
  {
    Following(front, rest);
    StringEndShifted(front + rest, rest, |front|, i, quote);
  }

  /** What may stand between quotes: a quote of its kind only after a backslash, which
      takes the next character with it. */
  predicate IsBody(body: string, quote: char) {
    body == "" ||
    (body[0] != quote &&
     if body[0] == '\\' then |body| > 1 && IsBody(body[2..], quote) else IsBody(body[1..], quote))
  }

  lemma {:induction false} BodyEnds(body: string, rest: string, quote: char)
    requires IsBody(body, quote) && quote != '\\'
    ensures StringEnd(body + [quote] + rest, 0, quote) == At(|body| + 1)
  {
    var whole := body + [quote] + rest;
    if body != "" {
      var n := if body[0] == '\\' then 2 else 1;
      BodyEnds(body[n..], rest, quote);
      var later := body[n..] + [quote] + rest;
      assert whole == body[..n] + later && whole[0] == body[0];
      StringEndAfter(body[..n], later, 0, quote);
    }
  }

  lemma {:induction false} OpenBody(body: string, quote: char)
    requires IsBody(body, quote)
    ensures StringEnd(body, 0, quote) == Unclosed
  {
    if body != "" {
      var n := if body[0] == '\\' then 2 else 1;
      OpenBody(body[n..], quote);
      assert body == body[..n] + body[n..];
      StringEndAfter(body[..n], body[n..], 0, quote);
    }
  }

  lemma BlanksShifted(whole: string, rest: string, offset: nat, i: nat, n: nat)
    requires Follows(whole, rest, offset) && i <= n <= |rest|
    ensures Blanks(whole, offset + i, offset + n) == Blanks(rest, i, n)
  {
    BlanksAt(whole, offset + i, offset + n);
    BlanksAt(rest, i, n);
  }

  function Blank(c: char): char {
    if c == '\n' then '\n' else ' '
  }

  /** The characters from `i` to `n`, with everything but the newlines blanked. */
  function Blanks(text: string, i: nat, n: nat): (blank: string)
    requires i <= n <= |text|
    ensures |blank| == n - i
    decreases n - i
  {
    if i == n then "" else [Blank(text[i])] + Blanks(text, i + 1, n)
  }

  lemma {:induction false} BlanksSplit(text: string, i: nat, j: nat, n: nat)
    requires i <= j <= n <= |text|
    ensures Blanks(text, i, n) == Blanks(text, i, j) + Blanks(text, j, n)
    decreases j - i
  {
    if i == j {
      assert Blanks(text, i, j) == "";
    } else {
      BlanksSplit(text, i + 1, j, n);
      Joined([Blank(text[i])], Blanks(text, i + 1, j), Blanks(text, j, n));
    }
  }

  lemma {:induction false} BlanksAt(text: string, i: nat, n: nat)
    requires i <= n <= |text|
    ensures forall k :: 0 <= k < n - i ==> Blanks(text, i, n)[k] == Blank(text[i + k])
    decreases n - i
  {
    if i < n {
      BlanksAt(text, i + 1, n);
      forall k | 0 <= k < n - i ensures Blanks(text, i, n)[k] == Blank(text[i + k]) {
        if k > 0 {
          assert Blanks(text, i + 1, n)[k - 1] == Blank(text[i + 1 + (k - 1)]);
        }
      }
    }
  }

  /** The text with everything but its newlines blanked. */
  function Blanked(text: string): string {
    seq(|text|, k requires 0 <= k < |text| => if text[k] == '\n' then '\n' else ' ')
  }

  lemma BlanksWithin(first: string, rest: string)
    ensures Blanks(first + rest, 0, |first|) == Blanked(first)
  {
    BlanksAt(first + rest, 0, |first|);
  }

  lemma {:induction false} SameBlanks(a: string, b: string, i: nat, n: nat)
    requires i <= n <= |a| && n <= |b|
    requires forall k :: i <= k < n ==> (a[k] == '\n' <==> b[k] == '\n')
    ensures Blanks(a, i, n) == Blanks(b, i, n)
    decreases n - i
  {
    if i < n {
      SameBlanks(a, b, i + 1, n);
    }
  }

  /** Same length, same newlines, and every character the original or a space. */
  predicate KeepsLayout(text: string, stripped: string) {
    && |stripped| == |text|
    && (forall i :: 0 <= i < |text| ==> stripped[i] == text[i] || stripped[i] == ' ')
    && (forall i :: 0 <= i < |text| ==> (stripped[i] == '\n' <==> text[i] == '\n'))
  }

  lemma LayoutJoined(a: string, a': string, b: string, b': string)
    requires KeepsLayout(a, a') && KeepsLayout(b, b')
    ensures KeepsLayout(a + b, a' + b')
  {}

  lemma Joined(a: string, b: string, c: string)
    ensures a + (b + c) == a + b + c
  {}
}
