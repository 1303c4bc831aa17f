/** The two string helpers the collation code relies on: splitting at a
    delimiter, which drops the empty pieces, and ASCII lower-casing. */
module StringUtil {

  /** The index of the first occurrence of `d` in `s`. */
  function IndexOf(s: string, d: char): (i: nat)
    requires d in s
    ensures i < |s| && s[i] == d && d !in s[..i]
  {
    if s[0] == d then 0
    else
      assert s == [s[0]] + s[1..];
      var j := IndexOf(s[1..], d);
      assert s[..j + 1] == [s[0]] + s[1..][..j];
      j + 1
  }

  /** The pieces of `s` between consecutive occurrences of `d`, empty pieces
      included. */
  function Pieces(s: string, d: char): (r: seq<string>)
    ensures |r| >= 1
    ensures forall k :: 0 <= k < |r| ==> d !in r[k]
    decreases |s|
  {
    if d !in s then [s]
    else
      var i := IndexOf(s, d);
      [s[..i]] + Pieces(s[i + 1..], d)
  }

  /** The pieces joined back together with `d` between them. */
  function Join(pieces: seq<string>, d: char): string
    requires |pieces| >= 1
  {
    if |pieces| == 1 then pieces[0] else pieces[0] + [d] + Join(pieces[1..], d)
  }

  lemma {:induction false} JoinPieces(s: string, d: char)
    ensures Join(Pieces(s, d), d) == s
    decreases |s|
  {
    if d in s {
      var i := IndexOf(s, d);
      var rest := s[i + 1..];
      JoinPieces(rest, d);
      var pieces := Pieces(s, d);
      assert pieces == [s[..i]] + Pieces(rest, d);
      assert pieces[0] == s[..i] && pieces[1..] == Pieces(rest, d);
      assert Join(pieces, d) == s[..i] + [d] + rest;
      assert s == s[..i] + [d] + rest;
    }
  }

  function NonEmpty(pieces: seq<string>): (r: seq<string>)
    ensures forall k :: 0 <= k < |r| ==> r[k] != "" && r[k] in pieces
    ensures forall p :: p in pieces && p != "" ==> p in r
  {
    if pieces == [] then []
    else if pieces[0] == "" then NonEmpty(pieces[1..])
    else [pieces[0]] + NonEmpty(pieces[1..])
  }

  /** Keeping the non-empty pieces distributes over concatenation, so the
      pieces kept are those of the input in their order. */
  lemma {:induction false} NonEmptyAppend(a: seq<string>, b: seq<string>)
    ensures NonEmpty(a + b) == NonEmpty(a) + NonEmpty(b)
  {
    if a == [] {
      assert a + b == b;
    } else {
      var ab := a + b;
      assert ab[0] == a[0] && ab[1..] == a[1..] + b;
      NonEmptyAppend(a[1..], b);
      if a[0] != "" {
        calc {
          NonEmpty(ab);
          [a[0]] + NonEmpty(a[1..] + b);
          [a[0]] + (NonEmpty(a[1..]) + NonEmpty(b));
          ([a[0]] + NonEmpty(a[1..])) + NonEmpty(b);
        }
      }
    }
  }

  /** A list of non-empty pieces is kept whole. */
  lemma {:induction false} NonEmptyKeepsAll(pieces: seq<string>)
    requires forall k :: 0 <= k < |pieces| ==> pieces[k] != ""
    ensures NonEmpty(pieces) == pieces
  {
    if pieces != [] {
      NonEmptyKeepsAll(pieces[1..]);
    }
  }

  /** Splits `s` at every `d` and keeps the non-empty pieces, in order. */
  function Split(s: string, d: char): (r: seq<string>)
    ensures forall k :: 0 <= k < |r| ==> r[k] != "" && d !in r[k]
  {
    NonEmpty(Pieces(s, d))
  }

  /** When no two delimiters are adjacent and none is at either end, the
      split keeps every piece and joining the pieces gives `s` back. */
  lemma SplitRoundTrip(s: string, d: char)
    requires forall k :: 0 <= k < |Pieces(s, d)| ==> Pieces(s, d)[k] != ""
    ensures Split(s, d) == Pieces(s, d)
    ensures Join(Split(s, d), d) == s
  {
    NonEmptyKeepsAll(Pieces(s, d));
    JoinPieces(s, d);
  }

  lemma SplitWhole(s: string, d: char)
    requires s != "" && d !in s
    ensures Split(s, d) == [s]
  {
    assert NonEmpty([s]) == [s] + NonEmpty([]);
  }

  lemma {:induction false} SplitPair(a: string, b: string, d: char)
    requires a != "" && b != "" && d !in a && d !in b
    ensures Split(a + [d] + b, d) == [a, b]
  {
    var s := a + [d] + b;
    assert s[|a|] == d;
    var i := IndexOf(s, d);
    assert s[..i] == a;
    assert s[i + 1..] == b;
    assert Pieces(s, d) == [a] + [b];
    assert NonEmpty([a] + [b]) == [a] + NonEmpty([b]);
  }

  function LowerChar(c: char): char
  {
    if 'A' <= c <= 'Z' then (c as int + 32) as char else c
  }

  /** `s` with every ASCII upper-case letter replaced by its lower-case
      letter; every other character is kept. */
  function Lower(s: string): (r: string)
    ensures |r| == |s|
    ensures forall k :: 0 <= k < |s| ==> r[k] == LowerChar(s[k])
  {
    if s == [] then [] else [LowerChar(s[0])] + Lower(s[1..])
  }

  lemma LowerAppend(a: string, b: string)
    ensures Lower(a + b) == Lower(a) + Lower(b)
  {
    assert forall k :: 0 <= k < |a + b| ==> Lower(a + b)[k] == (Lower(a) + Lower(b))[k];
  }

  /** Lower-casing never produces a delimiter that was not there: the
      delimiters it keeps and introduces are exactly those of the input. */
  lemma LowerKeepsUnderscore(s: string)
    ensures '_' in Lower(s) <==> '_' in s
  {
    if '_' in s {
      var k :| 0 <= k < |s| && s[k] == '_';
      assert Lower(s)[k] == '_';
    }
    if '_' in Lower(s) {
      var k :| 0 <= k < |s| && Lower(s)[k] == '_';
      assert s[k] == '_';
    }
  }
}
