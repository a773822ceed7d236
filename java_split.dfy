/**
 * Java's `String.split(" ")`: the text between single spaces, with the
 * empty pieces at the end dropped, and the whole text when it holds no
 * space at all.
 */
module JavaSplit {

  /** The pieces between single spaces, every empty one kept. */
  function Pieces(s: string): (p: seq<string>)
    ensures |p| > 0
  {
    if |s| == 0 then [""]
    else if s[0] == ' ' then [""] + Pieces(s[1..])
    else
      var rest := Pieces(s[1..]);
      [[s[0]] + rest[0]] + rest[1..]
  }

  /** The pieces put back together with one space between neighbours. */
  function Join(p: seq<string>): string
    requires |p| > 0
  {
    if |p| == 1 then p[0] else p[0] + " " + Join(p[1..])
  }

  lemma {:induction false} PiecesJoin(s: string)
    ensures Join(Pieces(s)) == s
  {
    if |s| > 0 {
      PiecesJoin(s[1..]);
      var rest := Pieces(s[1..]);
      if s[0] == ' ' {
        assert ([""] + rest)[1..] == rest;
      } else {
        var p := [[s[0]] + rest[0]] + rest[1..];
        if |rest| > 1 {
          assert p[1..] == rest[1..];
          assert Join(rest) == rest[0] + " " + Join(rest[1..]);
        }
      }
    }
  }

  lemma {:induction false} PiecesHaveNoSpace(s: string)
    ensures forall k, j :: 0 <= k < |Pieces(s)| && 0 <= j < |Pieces(s)[k]| ==> Pieces(s)[k][j] != ' '
  {
    if |s| > 0 {
      PiecesHaveNoSpace(s[1..]);
    }
  }

  function DropTrailingEmpty(p: seq<string>): (r: seq<string>)
    ensures |r| <= |p| && r == p[..|r|]
    ensures forall k :: |r| <= k < |p| ==> p[k] == ""
    ensures |r| > 0 ==> r[|r| - 1] != ""
  {
    if |p| > 0 && p[|p| - 1] == "" then DropTrailingEmpty(p[..|p| - 1]) else p
  }

  /** `String.split(" ")`. */
  function Split(s: string): seq<string> {
    if ' ' !in s then [s] else DropTrailingEmpty(Pieces(s))
  }

  /**
   * The tokens are the leading pieces between spaces: only empty pieces at
   * the end are missing, and no token holds a space. Text without a space
   * is its own single token, even when empty.
   */
  lemma SplitTokens(s: string)
    ensures ' ' !in s ==> Split(s) == [s]
    ensures ' ' in s ==>
      && Split(s) == Pieces(s)[..|Split(s)|]
      && (forall k :: |Split(s)| <= k < |Pieces(s)| ==> Pieces(s)[k] == "")
      && (|Split(s)| > 0 ==> Split(s)[|Split(s)| - 1] != "")
    ensures forall k, j :: 0 <= k < |Split(s)| && 0 <= j < |Split(s)[k]| ==> Split(s)[k][j] != ' '
  {
    PiecesHaveNoSpace(s);
    if ' ' in s {
      var p := Pieces(s);
      var r := Split(s);
      forall k, j | 0 <= k < |r| && 0 <= j < |r[k]| ensures r[k][j] != ' ' {
        assert r[k] == p[k];
      }
    }
  }

  /** A text made only of spaces splits into no token at all. */
  lemma OnlySpaces(n: nat)
    requires n > 0
    ensures Split(seq(n, _ => ' ')) == []
  {
    var s := seq(n, _ => ' ');
    assert s[0] == ' ';
    AllEmptyPieces(s);
  }

  lemma {:induction false} AllEmptyPieces(s: string)
    requires forall k :: 0 <= k < |s| ==> s[k] == ' '
    ensures forall k :: 0 <= k < |Pieces(s)| ==> Pieces(s)[k] == ""
  {
    if |s| > 0 {
      AllEmptyPieces(s[1..]);
    }
  }
}
