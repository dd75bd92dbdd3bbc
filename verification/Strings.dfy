/** Strings joined by a separator, as Python's `join` and `split` see them. */
module Strings {

  predicate StartsWith(text: string, prefix: string) {
    |prefix| <= |text| && text[..|prefix|] == prefix
  }

  /** Put text before the first piece. */
  function Extend(prefix: string, pieces: seq<string>): (r: seq<string>)
    requires pieces != []
    ensures |r| == |pieces|
  {
    [prefix + pieces[0]] + pieces[1..]
  }

  lemma ExtendTwice(a: string, b: string, pieces: seq<string>)
    requires pieces != []
    ensures Extend(a, Extend(b, pieces)) == Extend(a + b, pieces)
  {
    assert a + (b + pieces[0]) == a + b + pieces[0];
  }

  lemma ExtendNothing(pieces: seq<string>)
    requires pieces != []
    ensures Extend("", pieces) == pieces
  {
    assert "" + pieces[0] == pieces[0];
  }

  /** `separator.join(pieces)`. */
  function Join(separator: string, pieces: seq<string>): string {
    if pieces == [] then ""
    else if |pieces| == 1 then pieces[0]
    else pieces[0] + separator + Join(separator, pieces[1..])
  }

  lemma JoinExtended(separator: string, prefix: string, pieces: seq<string>)
    requires pieces != []
    ensures Join(separator, Extend(prefix, pieces)) == prefix + Join(separator, pieces)
  {}
}
