/** Blanking the comments and strings of Wolfram Language text. The scanner keeps a
    nesting counter and two flags; the grammar it follows is recursive: code, strings
    with escapes, and comments that hold comments. */
module WolframScanner {
  import opened ScannedText

  predicate OpensAt(text: string, i: nat) {
    i + 1 < |text| && text[i] == '(' && text[i + 1] == '*'
  }

  predicate ClosesAt(text: string, i: nat) {
    i + 1 < |text| && text[i] == '*' && text[i + 1] == ')'
  }

  // ---- The grammar ---------------------------------------------------------

  /** The end of the comment that is open at `i`: comments in it come first. */
  function CommentEnd(text: string, i: nat): (end: End)
    requires i <= |text|
    ensures end.At? ==> i + 2 <= end.index <= |text|
    decreases |text| - i
  {
    if i + 1 >= |text| then Unclosed
    else if ClosesAt(text, i) then At(i + 2)
    else if OpensAt(text, i) then
      match CommentEnd(text, i + 2)
      case Unclosed => Unclosed
      case At(n) => CommentEnd(text, n)
    else CommentEnd(text, i + 1)
  }

  /** The end of the comment or string that starts at `i` in code; `i` if none does. */
  function Skips(text: string, i: nat): (n: nat)
    requires i < |text|
    ensures i <= n <= |text|
  {
    if OpensAt(text, i) then CommentEnd(text, i + 2).In(text)
    else if text[i] == '"' then StringEnd(text, i + 1, '"').In(text)
    else i
  }

  /** Where the item of code at `i` ends. */
  function Next(text: string, i: nat): (n: nat)
    requires i < |text|
    ensures i < n <= |text|
  {
    if Skips(text, i) == i then i + 1 else Skips(text, i)
  }

  /** That item, stripped. */
  function Item(text: string, i: nat): (item: string)
    requires i < |text|
    ensures |item| == Next(text, i) - i
  {
    if Skips(text, i) == i then [text[i]] else Blanks(text, i, Skips(text, i))
  }

  /** The stripped text from `i` on, where the scanner is in code. */
  function Code(text: string, i: nat): (stripped: string)
    requires i <= |text|
    decreases |text| - i
  {
    if i == |text| then "" else Item(text, i) + Code(text, Next(text, i))
  }

  function Stripped(text: string): string {
    Code(text, 0)
  }

  // ---- The scanner ---------------------------------------------------------

  /** The end of `depth` comments open at `i`. */
  function Nested(text: string, i: nat, depth: nat): (end: nat)
    requires i <= |text|
    ensures i <= end <= |text|
    decreases depth
  {
    if depth == 0 then i
    else match CommentEnd(text, i)
      case Unclosed => |text|
      case At(n) => Nested(text, n, depth - 1)
  }

  function Skipped(text: string, i: nat, depth: nat, inString: bool, escaped: bool): (end: nat)
    requires i <= |text|
    ensures i <= end <= |text|
  {
    if depth > 0 then Nested(text, i, depth) else if inString then Quoted(text, i, '"', escaped) else i
  }

  /** What the scanner has still to write. */
  function Pending(text: string, i: nat, depth: nat, inString: bool, escaped: bool): string
    requires i <= |text|
  {
    var n := Skipped(text, i, depth, inString, escaped);
    Blanks(text, i, n) + Code(text, n)
  }

  lemma PendingSkips(text: string, i: nat, j: nat, n: nat)
    requires i <= j <= n <= |text|
    ensures Blanks(text, i, n) + Code(text, n) == Blanks(text, i, j) + (Blanks(text, j, n) + Code(text, n))
  {
    BlanksSplit(text, i, j, n);
    Joined(Blanks(text, i, j), Blanks(text, j, n), Code(text, n));
  }

  lemma CommentStep(text: string, i: nat, depth: nat, j: nat, after: nat)
    requires depth > 0 && i <= j <= |text| && Nested(text, i, depth) == Nested(text, j, after)
    ensures Pending(text, i, depth, false, false) == Blanks(text, i, j) + Pending(text, j, after, false, false)
  {
    PendingSkips(text, i, j, Nested(text, j, after));
  }

  lemma CommentOpens(text: string, i: nat, depth: nat)
    requires depth > 0 && OpensAt(text, i)
    ensures Pending(text, i, depth, false, false) == "  " + Pending(text, i + 2, depth + 1, false, false)
  {
    CommentStep(text, i, depth, i + 2, depth + 1);
  }

  lemma CommentCloses(text: string, i: nat, depth: nat)
    requires depth > 0 && ClosesAt(text, i)
    ensures Pending(text, i, depth, false, false) == "  " + Pending(text, i + 2, depth - 1, false, false)
  {
    CommentStep(text, i, depth, i + 2, depth - 1);
  }

  lemma CommentContinues(text: string, i: nat, depth: nat)
    requires depth > 0 && i < |text| && !OpensAt(text, i) && !ClosesAt(text, i)
    ensures Pending(text, i, depth, false, false) == [Blank(text[i])] + Pending(text, i + 1, depth, false, false)
  {
    CommentStep(text, i, depth, i + 1, depth);
  }

  lemma StringStep(text: string, i: nat, escaped: bool)
    requires i < |text|
    ensures var after := !escaped && text[i] == '\\';
            Pending(text, i, 0, true, escaped) ==
            [Blank(text[i])] + Pending(text, i + 1, 0, escaped || text[i] != '"', after)
  {
    var after := !escaped && text[i] == '\\';
    PendingSkips(text, i, i + 1, if escaped || text[i] != '"' then Quoted(text, i + 1, '"', after) else i + 1);
  }

  lemma PendingCode(text: string, i: nat)
    requires i <= |text|
    ensures Pending(text, i, 0, false, false) == Code(text, i)
  {
    assert Blanks(text, i, i) == "";
  }

  lemma CodeOpens(text: string, i: nat)
    requires OpensAt(text, i)
    ensures Pending(text, i, 0, false, false) == "  " + Pending(text, i + 2, 1, false, false)
  {
    PendingCode(text, i);
    PendingSkips(text, i, i + 2, Skips(text, i));
    assert Nested(text, i + 2, 1) == Skips(text, i);
  }

  lemma CodeQuotes(text: string, i: nat)
    requires i < |text| && text[i] == '"'
    ensures Pending(text, i, 0, false, false) == " " + Pending(text, i + 1, 0, true, false)
  {
    PendingCode(text, i);
    PendingSkips(text, i, i + 1, Skips(text, i));
  }

  lemma CodeCopies(text: string, i: nat)
    requires i < |text| && !OpensAt(text, i) && text[i] != '"'
    ensures Pending(text, i, 0, false, false) == [text[i]] + Pending(text, i + 1, 0, false, false)
  {
    PendingCode(text, i);
    PendingCode(text, i + 1);
  }

  /** The counter and flags recognise exactly the recursive grammar. */
  method Strip(text: string) returns (output: string)
    ensures output == Stripped(text)
  {
    output := "";
    var index, commentDepth, inString, escaped := 0, 0, false, false;
    PendingCode(text, 0);
    ghost var whole, pending := Stripped(text), Stripped(text);
    while index < |text|
      invariant 0 <= index <= |text| && 0 <= commentDepth
      invariant if commentDepth > 0 then !inString && !escaped else escaped ==> inString
      invariant pending == Pending(text, index, commentDepth, inString, escaped)
      invariant output + pending == whole
    {
      ghost var before, written := output, "  ";
      var character := text[index];
      var pair := text[index..if index + 2 <= |text| then index + 2 else |text|];
      PairAt(text, index, pair);
      if commentDepth > 0 {
        if pair == "(*" {
          CommentOpens(text, index, commentDepth);
          commentDepth := commentDepth + 1;
          output := output + "  ";
          index := index + 2;
        } else if pair == "*)" {
          CommentCloses(text, index, commentDepth);
          commentDepth := commentDepth - 1;
          output := output + "  ";
          index := index + 2;
        } else {
          CommentContinues(text, index, commentDepth);
          written := [Blank(character)];
          output := output + [if character == '\n' then '\n' else ' '];
          index := index + 1;
        }
      } else if inString {
        StringStep(text, index, escaped);
        written := [Blank(character)];
        output := output + [if character == '\n' then '\n' else ' '];
        if escaped {
          escaped := false;
        } else if character == '\\' {
          escaped := true;
        } else if character == '"' {
          inString := false;
        }
        index := index + 1;
      } else {
        if pair == "(*" {
          CodeOpens(text, index);
          commentDepth := 1;
          output := output + "  ";
          index := index + 2;
        } else if character == '"' {
          CodeQuotes(text, index);
          written := " ";
          inString := true;
          output := output + " ";
          index := index + 1;
        } else {
          CodeCopies(text, index);
          written := [character];
          output := output + [character];
          index := index + 1;
        }
      }
      ghost var more := Pending(text, index, commentDepth, inString, escaped);
      assert pending == written + more;
      Joined(before, written, more);
      pending := more;
    }
    assert pending == "";
  }

  lemma PairAt(text: string, i: nat, pair: string)
    requires i < |text| && pair == text[i..if i + 2 <= |text| then i + 2 else |text|]
    ensures (OpensAt(text, i) <==> pair == "(*") && (ClosesAt(text, i) <==> pair == "*)")
  {
    assert |pair| == 2 ==> pair[0] == text[i] && pair[1] == text[i + 1];
  }

  // ---- What stripping keeps ------------------------------------------------

  lemma {:induction false} CodeKeepsLayout(text: string, i: nat)
    requires i <= |text|
    ensures KeepsLayout(text[i..], Code(text, i))
    decreases |text| - i
  {
    if i < |text| {
      var n := Next(text, i);
      CodeKeepsLayout(text, n);
      ItemKeepsLayout(text, i);
      LayoutJoined(text[i..n], Item(text, i), text[n..], Code(text, n));
      assert text[i..] == text[i..n] + text[n..];
    }
  }

  lemma ItemKeepsLayout(text: string, i: nat)
    requires i < |text|
    ensures KeepsLayout(text[i..Next(text, i)], Item(text, i))
  {
    BlanksAt(text, i, Skips(text, i));
  }

  lemma StripKeepsLayout(text: string)
    ensures KeepsLayout(text, Stripped(text))
  {
    CodeKeepsLayout(text, 0);
    assert text[0..] == text;
  }

  /** No quote and no comment opener. */
  predicate Quiet(text: string) {
    && (forall i :: 0 <= i < |text| ==> text[i] != '"')
    && (forall i :: 0 <= i < |text| ==> !OpensAt(text, i))
  }

  lemma {:induction false} CodeIsQuiet(text: string, i: nat)
    requires i <= |text|
    ensures Quiet(Code(text, i)) && |Code(text, i)| == |text| - i
    ensures i < |text| && Code(text, i)[0] == '*' ==> text[i] == '*'
    decreases |text| - i
  {
    if i < |text| {
      CodeIsQuiet(text, Next(text, i));
      ItemIsQuiet(text, i);
      QuietJoined(Item(text, i), Code(text, Next(text, i)));
    }
  }

  lemma ItemIsQuiet(text: string, i: nat)
    requires i < |text|
    ensures var item, n := Item(text, i), Next(text, i);
            && Quiet(item) && |item| > 0 && (item[0] == '*' ==> text[i] == '*')
            && (item[|item| - 1] == '(' ==> n == i + 1 && text[i] == '(' && (n < |text| ==> text[n] != '*'))
  {
    BlanksAt(text, i, Skips(text, i));
  }

  lemma QuietJoined(a: string, b: string)
    requires Quiet(a) && Quiet(b)
    requires a != "" && b != "" && a[|a| - 1] == '(' ==> b[0] != '*'
    ensures Quiet(a + b)
  {
    forall i | 0 <= i < |a + b| ensures !OpensAt(a + b, i) {
      if i < |a| {
        assert !OpensAt(a, i);
      } else {
        assert !OpensAt(b, i - |a|);
      }
    }
  }

  lemma {:induction false} QuietIsFixed(text: string, i: nat)
    requires i <= |text| && Quiet(text)
    ensures Code(text, i) == text[i..]
    decreases |text| - i
  {
    if i < |text| {
      QuietIsFixed(text, i + 1);
      assert !OpensAt(text, i);
      assert [text[i]] + text[i + 1..] == text[i..];
    }
  }

  /** Stripping stripped text changes nothing. */
  lemma StripTwice(text: string)
    ensures Stripped(Stripped(text)) == Stripped(text)
  {
    CodeIsQuiet(text, 0);
    QuietIsFixed(Stripped(text), 0);
  }

  // ---- Properly nested comments --------------------------------------------

  /** What stands between a comment's opener and its closer, as a tree. */
  datatype Body = Done | Plain(c: char, rest: Body) | Inner(inner: Body, rest: Body)

  /** The printed body, up to and with the closing mark. */
  function Print(body: Body): (text: string)
    ensures |text| >= 2
  {
    match body
    case Done => "*)"
    case Plain(c, rest) => [c] + Print(rest)
    case Inner(inner, rest) => "(*" + Print(inner) + Print(rest)
  }

  /** No plain character starts a mark by accident. */
  predicate WellFormed(body: Body) {
    match body
    case Done => true
    case Plain(_, rest) => !OpensAt(Print(body), 0) && !ClosesAt(Print(body), 0) && WellFormed(rest)
    case Inner(inner, rest) => WellFormed(inner) && WellFormed(rest)
  }

  predicate IsAt(printed: string, text: string, i: nat) {
    i + |printed| <= |text| && forall k :: 0 <= k < |printed| ==> text[i + k] == printed[k]
  }

  lemma SplitAt(a: string, b: string, text: string, i: nat)
    requires IsAt(a + b, text, i)
    ensures IsAt(a, text, i) && IsAt(b, text, i + |a|)
  {
    forall k | 0 <= k < |a| ensures text[i + k] == a[k] { assert (a + b)[k] == a[k]; }
    forall k | 0 <= k < |b| ensures text[i + |a| + k] == b[k] { assert (a + b)[|a| + k] == b[k]; }
  }

  lemma IsAtFirst(printed: string, text: string, i: nat)
    requires IsAt(printed, text, i) && |printed| >= 2
    ensures OpensAt(text, i) <==> OpensAt(printed, 0)
    ensures ClosesAt(text, i) <==> ClosesAt(printed, 0)
  {
    assert text[i + 0] == printed[0] && text[i + 1] == printed[1];
  }

  /** A properly nested comment ends at its own closing mark, whatever follows. */
  lemma {:induction false} NestedCommentEnds(body: Body, text: string, i: nat)
    requires WellFormed(body) && IsAt(Print(body), text, i)
    ensures CommentEnd(text, i) == At(i + |Print(body)|)
    decreases body
  {
    IsAtFirst(Print(body), text, i);
    match body
    case Done =>
    case Plain(c, rest) =>
      SplitAt([c], Print(rest), text, i);
      NestedCommentEnds(rest, text, i + 1);
    case Inner(inner, rest) =>
      InnerAt(Print(inner), Print(rest), text, i);
      NestedCommentEnds(inner, text, i + 2);
      NestedCommentEnds(rest, text, i + 2 + |Print(inner)|);
  }

  lemma InnerAt(inner: string, rest: string, text: string, i: nat)
    requires IsAt("(*" + inner + rest, text, i)
    ensures OpensAt(text, i) && IsAt(inner, text, i + 2) && IsAt(rest, text, i + 2 + |inner|)
  {
    IsAtFirst("(*" + inner + rest, text, i);
    SplitAt("(*" + inner, rest, text, i);
    SplitAt("(*", inner, text, i);
  }

  /** And only those end: every closed comment is the print of a nested body. */
  lemma {:induction false} ClosedCommentIsNested(text: string, i: nat)
    requires i <= |text| && CommentEnd(text, i).At?
    ensures exists body :: WellFormed(body) && Print(body) == text[i..CommentEnd(text, i).index]
    decreases |text| - i
  {
    var n := CommentEnd(text, i).index;
    if ClosesAt(text, i) {
      assert WellFormed(Done) && Print(Done) == text[i..n];
    } else if OpensAt(text, i) {
      var middle := CommentEnd(text, i + 2).index;
      ClosedCommentIsNested(text, i + 2);
      var inner :| WellFormed(inner) && Print(inner) == text[i + 2..middle];
      ClosedCommentIsNested(text, middle);
      var rest :| WellFormed(rest) && Print(rest) == text[middle..n];
      InnerBody(inner, rest, text, i, middle, n);
    } else {
      ClosedCommentIsNested(text, i + 1);
      var rest :| WellFormed(rest) && Print(rest) == text[i + 1..n];
      PlainBody(rest, text, i, n);
    }
  }

  lemma InnerBody(inner: Body, rest: Body, text: string, i: nat, middle: nat, n: nat)
    requires OpensAt(text, i) && i + 2 <= middle <= n <= |text| && WellFormed(inner) && WellFormed(rest)
    requires Print(inner) == text[i + 2..middle] && Print(rest) == text[middle..n]
    ensures WellFormed(Inner(inner, rest)) && Print(Inner(inner, rest)) == text[i..n]
  {
    assert "(*" + text[i + 2..middle] + text[middle..n] == text[i..n];
  }

  lemma PlainBody(rest: Body, text: string, i: nat, n: nat)
    requires !OpensAt(text, i) && !ClosesAt(text, i) && i < n <= |text|
    requires WellFormed(rest) && Print(rest) == text[i + 1..n]
    ensures WellFormed(Plain(text[i], rest)) && Print(Plain(text[i], rest)) == text[i..n]
  {
    var printed := [text[i]] + text[i + 1..n];
    assert printed == text[i..n];
    assert |printed| >= 2 && printed[0] == text[i] && printed[1] == text[i + 1];
  }

  // ---- The inside of comments ----------------------------------------------

  /** A closed comment is closed by its own characters. */
  lemma {:induction false} CommentEndLocal(a: string, b: string, i: nat)
    requires i <= |a| && CommentEnd(a, i).At? && Agree(a, b, i, CommentEnd(a, i).index)
    ensures CommentEnd(b, i) == CommentEnd(a, i)
    decreases |a| - i
  {
    if ClosesAt(a, i) {
    } else if OpensAt(a, i) {
      CommentEndLocal(a, b, i + 2);
      CommentEndLocal(a, b, CommentEnd(a, i + 2).index);
    } else {
      CommentEndLocal(a, b, i + 1);
    }
  }

  lemma CommentEndSuffix(a: string, b: string, i: nat)
    requires i <= |a| == |b| && Agree(a, b, i, |a|)
    ensures CommentEnd(a, i) == CommentEnd(b, i)
  {
    if CommentEnd(a, i).At? {
      CommentEndLocal(a, b, i);
    } else if CommentEnd(b, i).At? {
      CommentEndLocal(b, a, i);
    }
  }

  lemma NextSuffix(a: string, b: string, i: nat)
    requires i < |a| == |b| && Agree(a, b, i, |a|)
    ensures Next(b, i) == Next(a, i) && Item(b, i) == Item(a, i)
  {
    if OpensAt(a, i) {
      CommentEndSuffix(a, b, i + 2);
    } else if a[i] == '"' {
      StringEndSuffix(a, b, i + 1, '"');
    }
    SameBlanks(a, b, i, Skips(a, i));
  }

  lemma {:induction false} CodeSuffix(a: string, b: string, i: nat)
    requires i <= |a| == |b| && Agree(a, b, i, |a|)
    ensures Code(a, i) == Code(b, i)
    decreases |a| - i
  {
    if i < |a| {
      NextSuffix(a, b, i);
      CodeSuffix(a, b, Next(a, i));
    }
  }

  /** The scanner, in code at `i`, is in code again at `at`. */
  predicate Reaches(text: string, i: nat, at: nat)
    requires i <= |text|
    decreases |text| - i
  {
    i == at || (i < |text| && i < at && Reaches(text, Next(text, i), at))
  }

  lemma NextLocal(a: string, b: string, i: nat, at: nat)
    requires i < at < |a| == |b| && Next(a, i) <= at && Agree(a, b, i, at + 1)
    ensures Next(b, i) == Next(a, i) && Item(b, i) == Item(a, i)
  {
    if OpensAt(a, i) {
      CommentEndLocal(a, b, i + 2);
    } else if a[i] == '"' {
      StringEndLocal(a, b, i + 1, '"');
    }
    SameBlanks(a, b, i, Skips(a, i));
  }

  lemma {:induction false} ReachesNotPast(text: string, i: nat, at: nat)
    requires i <= |text| && Reaches(text, i, at)
    ensures i <= at <= |text|
    decreases |text| - i
  {
    if i != at {
      ReachesNotPast(text, Next(text, i), at);
    }
  }

  lemma {:induction false} CodeAgrees(a: string, b: string, i: nat, at: nat)
    requires i <= at < |a| == |b| && Reaches(a, i, at) && Agree(a, b, i, at + 1)
    requires Code(a, at) == Code(b, at)
    ensures Code(a, i) == Code(b, i)
    decreases |a| - i
  {
    if i != at {
      ReachesNotPast(a, Next(a, i), at);
      NextLocal(a, b, i, at);
      CodeAgrees(a, b, Next(a, i), at);
    }
  }

  /** A comment that starts in code is blanked as a whole. */
  lemma CommentItem(text: string, at: nat, body: Body)
    requires WellFormed(body) && IsAt("(*" + Print(body), text, at)
    ensures OpensAt(text, at) && Skips(text, at) == at + 2 + |Print(body)|
  {
    IsAtFirst("(*" + Print(body), text, at);
    SplitAt("(*", Print(body), text, at);
    NestedCommentEnds(body, text, at + 2);
  }

  lemma SkippedAlike(left: string, right: string, at: nat, n: nat)
    requires at < n <= |left| == |right|
    requires Skips(left, at) == n && Skips(right, at) == n && Agree(left, right, n, |left|)
    requires forall k :: at <= k < n ==> (left[k] == '\n' <==> right[k] == '\n')
    ensures Code(left, at) == Code(right, at)
  {
    SameBlanks(left, right, at, n);
    CodeSuffix(left, right, n);
  }

  lemma SameInside(left: string, right: string, at: nat, a: string, b: string)
    requires IsAt("(*" + a, left, at) && IsAt("(*" + b, right, at) && |a| == |b|
    requires forall k :: 0 <= k < |a| ==> (a[k] == '\n' <==> b[k] == '\n')
    ensures forall k :: at <= k < at + 2 + |a| ==> (left[k] == '\n' <==> right[k] == '\n')
  {
    forall k | at <= k < at + 2 + |a| ensures left[k] == '\n' <==> right[k] == '\n' {
      assert left[at + (k - at)] == ("(*" + a)[k - at] && right[at + (k - at)] == ("(*" + b)[k - at];
    }
  }

  /** What a properly nested comment says does not matter, only its length and its
      lines: two texts that differ only inside one are stripped alike. */
  lemma CommentInsideIrrelevant(left: string, right: string, at: nat, a: Body, b: Body)
    requires WellFormed(a) && IsAt("(*" + Print(a), left, at) && Reaches(left, 0, at)
    requires WellFormed(b) && IsAt("(*" + Print(b), right, at) && |left| == |right|
    requires |Print(a)| == |Print(b)|
    requires forall k :: 0 <= k < |Print(a)| ==> (Print(a)[k] == '\n' <==> Print(b)[k] == '\n')
    requires Agree(left, right, 0, at) && Agree(left, right, at + 2 + |Print(a)|, |left|)
    ensures Stripped(left) == Stripped(right)
  {
    CommentItem(left, at, a);
    CommentItem(right, at, b);
    SameInside(left, right, at, Print(a), Print(b));
    SkippedAlike(left, right, at, at + 2 + |Print(a)|);
    CodeAgrees(left, right, 0, at);
  }

  // ---- What stripping does, piece by piece ---------------------------------

  lemma {:induction false} CommentEndShifted(whole: string, rest: string, offset: nat, i: nat)
    requires Follows(whole, rest, offset) && i <= |rest|
    ensures CommentEnd(whole, offset + i) == Later(CommentEnd(rest, i), offset)
    decreases |rest| - i
  {
    var at := offset + i;
    if i + 1 < |rest| {
      assert whole[at] == rest[i] && whole[at + 1] == rest[i + 1];
      if ClosesAt(rest, i) {
      } else if OpensAt(rest, i) {
        CommentEndShifted(whole, rest, offset, i + 2);
        var inner := CommentEnd(rest, i + 2);
        if inner.At? {
          CommentEndShifted(whole, rest, offset, inner.index);
        }
      } else {
        CommentEndShifted(whole, rest, offset, i + 1);
      }
    }
  }

  lemma CommentEndAfter(front: string, rest: string, i: nat)
    requires i <= |rest|
    ensures CommentEnd(front + rest, |front| + i) == Later(CommentEnd(rest, i), |front|)
  {
    Following(front, rest);
    CommentEndShifted(front + rest, rest, |front|, i);
  }

  lemma SkipsShifted(whole: string, rest: string, offset: nat, i: nat)
    requires Follows(whole, rest, offset) && i < |rest|
    ensures Skips(whole, offset + i) == offset + Skips(rest, i)
  {
    var at := offset + i;
    assert whole[at] == rest[i] && (at + 1 < |whole| ==> whole[at + 1] == rest[i + 1]);
    if OpensAt(rest, i) {
      CommentEndShifted(whole, rest, offset, i + 2);
    } else if rest[i] == '"' {
      StringEndShifted(whole, rest, offset, i + 1, '"');
    }
  }

  lemma ItemShifted(whole: string, rest: string, offset: nat, i: nat)
    requires Follows(whole, rest, offset) && i < |rest|
    ensures Next(whole, offset + i) == offset + Next(rest, i)
    ensures Item(whole, offset + i) == Item(rest, i)
  {
    SkipsShifted(whole, rest, offset, i);
    BlanksShifted(whole, rest, offset, i, Skips(rest, i));
    assert whole[offset + i] == rest[i];
  }

  lemma SameItem(a: string, b: string, i: nat, j: nat, n: nat, m: nat)
    requires i < |a| && j < |b| && Next(a, i) == n && Next(b, j) == m
    requires Item(a, i) == Item(b, j) && Code(a, n) == Code(b, m)
    ensures Code(a, i) == Code(b, j)
  {}

  lemma ItemAlike(whole: string, rest: string, offset: nat, i: nat, j: nat)
    requires Follows(whole, rest, offset) && i < |rest| && j == offset + i
    ensures Next(whole, j) == offset + Next(rest, i) && Item(whole, j) == Item(rest, i)
  {
    ItemShifted(whole, rest, offset, i);
  }

  lemma {:induction false} CodeAlike(whole: string, rest: string, offset: nat, i: nat, j: nat)
    requires Follows(whole, rest, offset) && i <= |rest| && j == offset + i
    ensures Code(whole, j) == Code(rest, i)
    decreases |rest| - i
  {
    if i < |rest| {
      var n, m := Next(rest, i), Next(whole, j);
      ItemAlike(whole, rest, offset, i, j);
      CodeAlike(whole, rest, offset, n, m);
      SameItem(whole, rest, j, i, m, n);
    }
  }

  /** What stands before code does not matter. */
  lemma CodeShifted(front: string, rest: string)
    ensures Code(front + rest, |front|) == Code(rest, 0)
  {
    Following(front, rest);
    CodeAlike(front + rest, rest, |front|, 0, |front|);
  }

  /** A first item that is blanked, followed by the rest. */
  lemma FirstBlanked(first: string, rest: string)
    requires first != "" && Skips(first + rest, 0) == |first|
    ensures Stripped(first + rest) == Blanked(first) + Stripped(rest)
  {
    BlanksWithin(first, rest);
    CodeShifted(first, rest);
  }

  /** A properly nested comment is blanked, and code goes on behind it. */
  lemma CommentBlanked(body: Body, rest: string)
    requires WellFormed(body)
    ensures Stripped("(*" + Print(body) + rest) == Blanked("(*" + Print(body)) + Stripped(rest)
  {
    var first := "(*" + Print(body);
    CommentItem(first + rest, 0, body);
    FirstBlanked(first, rest);
  }

  /** A comment in which no nested body comes to its end takes the rest. */
  lemma OpenCommentBlanked(inside: string)
    requires forall body :: WellFormed(body) ==> !IsAt(Print(body), inside, 0)
    ensures Stripped("(*" + inside) == Blanked("(*" + inside)
  {
    var text := "(*" + inside;
    if CommentEnd(inside, 0).At? {
      ClosedCommentIsNested(inside, 0);
      var body :| WellFormed(body) && Print(body) == inside[0..CommentEnd(inside, 0).index];
      assert IsAt(Print(body), inside, 0);
    }
    CommentEndAfter("(*", inside, 0);
    assert text + "" == text;
    FirstBlanked(text, "");
  }

  /** A string is blanked with its quotes, whatever it holds. */
  lemma StringBlanked(body: string, rest: string)
    requires IsBody(body, '"')
    ensures var literal := "\"" + body + "\"";
            Stripped(literal + rest) == Blanked(literal) + Stripped(rest)
  {
    var literal := "\"" + body + "\"";
    BodyEnds(body, rest, '"');
    StringEndAfter("\"", body + ['"'] + rest, 0, '"');
    assert literal + rest == "\"" + (body + ['"'] + rest);
    FirstBlanked(literal, rest);
  }

  /** So is one that never ends. */
  lemma OpenStringBlanked(body: string)
    requires IsBody(body, '"')
    ensures Stripped("\"" + body) == Blanked("\"" + body)
  {
    OpenBody(body, '"');
    StringEndAfter("\"", body, 0, '"');
    assert "\"" + body + "" == "\"" + body;
    FirstBlanked("\"" + body, "");
  }

  /** Every other character is kept. */
  lemma CharacterKept(c: char, rest: string)
    requires c != '"' && (c == '(' && rest != "" ==> rest[0] != '*')
    ensures Stripped([c] + rest) == [c] + Stripped(rest)
  {
    CodeShifted([c], rest);
  }
}
