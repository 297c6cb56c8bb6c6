/** Text primitives of the selector: splitting, prefixes and suffixes, and ordering. */
module Texts {

  /** What a text is split on: NUL bytes, or runs of white space. */
  datatype Separator = Nul | Space

  predicate IsSpace(c: char) {
    var n := c as int;
    || 9 <= n <= 13 || 28 <= n <= 32 || n == 0x85 || n == 0xa0 || n == 0x1680
    || 0x2000 <= n <= 0x200a || n == 0x2028 || n == 0x2029 || n == 0x202f || n == 0x205f || n == 0x3000
  }

  /** The twenty-nine characters that Python calls white space, one by one. */
  lemma {:induction false} SpaceIff(c: char)
    ensures IsSpace(c) <==>
              c as int in {9, 10, 11, 12, 13, 28, 29, 30, 31, 32, 133, 160, 5760, 8192, 8193, 8194, 8195, 8196, 8197,
                           8198, 8199, 8200, 8201, 8202, 8232, 8233, 8239, 8287, 12288}
  {
  }

  predicate Separates(sep: Separator, c: char) {
    match sep
    case Nul => c as int == 0
    case Space => IsSpace(c)
  }

  function NonEmpty(word: string): seq<string> {
    if word == "" then [] else [word]
  }

  /** The non-empty pieces of `s`, `current` being the piece already begun. */
  function Words(sep: Separator, s: string, current: string): seq<string> {
    if s == "" then NonEmpty(current)
    else if Separates(sep, s[0]) then NonEmpty(current) + Words(sep, s[1..], "")
    else Words(sep, s[1..], current + [s[0]])
  }

  /** `word` can stand between separators: it is not empty and contains none. */
  predicate IsWord(sep: Separator, word: string) {
    word != "" && forall i :: 0 <= i < |word| ==> !Separates(sep, word[i])
  }

  lemma {:induction false} WordRead(sep: Separator, word: string, rest: string, current: string)
    requires forall i :: 0 <= i < |word| ==> !Separates(sep, word[i])
    ensures Words(sep, word + rest, current) == Words(sep, rest, current + word)
  {
    if word == "" {
      assert word + rest == rest && current + word == current;
    } else {
      assert (word + rest)[1..] == word[1..] + rest;
      WordRead(sep, word[1..], rest, current + [word[0]]);
      assert current + [word[0]] + word[1..] == current + word;
    }
  }

  /** A word followed by a separator is split off whole. */
  lemma {:induction false} WordSplit(sep: Separator, word: string, mark: char, rest: string)
    requires IsWord(sep, word) && Separates(sep, mark)
    ensures Words(sep, word + [mark] + rest, "") == [word] + Words(sep, rest, "")
  {
    assert word + [mark] + rest == word + ([mark] + rest);
    WordRead(sep, word, [mark] + rest, "");
    assert "" + word == word;
    assert ([mark] + rest)[1..] == rest;
  }

  /** A separator where a word could start is passed over. */
  lemma {:induction false} SeparatorSkipped(sep: Separator, mark: char, rest: string)
    requires Separates(sep, mark)
    ensures Words(sep, [mark] + rest, "") == Words(sep, rest, "")
  {
    assert ([mark] + rest)[1..] == rest;
  }

  lemma {:induction false} LastWord(sep: Separator, word: string)
    requires IsWord(sep, word)
    ensures Words(sep, word, "") == [word]
  {
    assert word + "" == word;
    WordRead(sep, word, "", "");
    assert "" + word == word;
  }

  predicate EndsWith(s: string, suffix: string) {
    |suffix| <= |s| && s[|s| - |suffix|..] == suffix
  }

  /** The pieces between slashes, empty ones included. */
  function Pieces(s: string, current: string): seq<string> {
    if s == "" then [current]
    else if s[0] == '/' then [current] + Pieces(s[1..], "")
    else Pieces(s[1..], current + [s[0]])
  }

  lemma {:induction false} PieceRead(piece: string, rest: string, current: string)
    requires '/' !in piece
    ensures Pieces(piece + rest, current) == Pieces(rest, current + piece)
  {
    if piece == "" {
      assert piece + rest == rest && current + piece == current;
    } else {
      assert (piece + rest)[1..] == piece[1..] + rest;
      PieceRead(piece[1..], rest, current + [piece[0]]);
      assert current + [piece[0]] + piece[1..] == current + piece;
    }
  }

  /** A text without a slash is its only piece; otherwise the part before the first slash is the first
      piece and the others are those of the rest. */
  lemma {:induction false} PieceSplit(piece: string, rest: string)
    requires '/' !in piece
    ensures Pieces(piece, "") == [piece]
    ensures Pieces(piece + "/" + rest, "") == [piece] + Pieces(rest, "")
  {
    assert piece + "" == piece && "" + piece == piece;
    PieceRead(piece, "", "");
    assert piece + "/" + rest == piece + ("/" + rest);
    PieceRead(piece, "/" + rest, "");
    assert ("/" + rest)[1..] == rest;
  }

  lemma {:induction false} FirstSlash(s: string) returns (piece: string, rest: string)
    requires '/' in s
    ensures '/' !in piece && s == piece + "/" + rest
  {
    if s[0] == '/' {
      piece, rest := "", s[1..];
    } else {
      assert s == [s[0]] + s[1..];
      piece, rest := FirstSlash(s[1..]);
      piece := [s[0]] + piece;
    }
  }

  /** Between `a` and `b` stands a maximal part of `s` without slashes. */
  ghost predicate PieceAt(s: string, a: string, piece: string, b: string) {
    && s == a + piece + b && '/' !in piece
    && (a == "" || a[|a| - 1] == '/') && (b == "" || b[0] == '/')
  }

  /** The pieces are exactly the maximal parts without slashes. */
  lemma {:induction false} PieceIff(s: string, piece: string)
    ensures piece in Pieces(s, "") <==> exists a, b :: PieceAt(s, a, piece, b)
    decreases |s|
  {
    if '/' !in s {
      PieceSplit(s, "");
      assert s == "" + s + "";
      assert piece == s ==> PieceAt(s, "", piece, "");
    } else {
      var first, rest := FirstSlash(s);
      PieceSplit(first, rest);
      PieceIff(rest, piece);
      if piece in Pieces(s, "") {
        PieceFound(s, first, rest, piece);
      }
      forall a, b | PieceAt(s, a, piece, b)
        ensures piece in Pieces(s, "")
      {
        PieceInRest(s, first, rest, a, piece, b);
      }
    }
  }

  lemma {:induction false} PieceFound(s: string, first: string, rest: string, piece: string)
    requires s == first + "/" + rest && '/' !in first
    requires piece == first || exists a, b :: PieceAt(rest, a, piece, b)
    ensures exists a, b :: PieceAt(s, a, piece, b)
  {
    if piece == first {
      assert s == "" + piece + ("/" + rest);
      assert PieceAt(s, "", piece, "/" + rest);
    } else {
      var a, b :| PieceAt(rest, a, piece, b);
      var longer := first + "/" + a;
      assert s == longer + piece + b;
      assert longer[|longer| - 1] == '/';
      assert PieceAt(s, longer, piece, b);
    }
  }

  lemma {:induction false} PieceInRest(s: string, first: string, rest: string, a: string, piece: string, b: string)
    requires s == first + "/" + rest && '/' !in first && PieceAt(s, a, piece, b)
    ensures piece == first || exists a', b' :: PieceAt(rest, a', piece, b')
  {
    var n := |first|;
    assert s[n] == '/' && forall i :: 0 <= i < n ==> s[i] == first[i];
    if a == "" {
      assert forall i :: 0 <= i < |piece| ==> s[i] == piece[i];
      assert b != "" ==> s[|piece|] == b[0];
      assert |piece| == n;
      assert s[..n] == piece && s[..n] == first;
    } else {
      assert s[|a| - 1] == a[|a| - 1];
      assert n < |a|;
      var a' := a[n + 1..];
      assert s[n + 1..] == rest && s[n + 1..] == a' + piece + b;
      assert PieceAt(rest, a', piece, b);
    }
  }

  // ----- order by code point -----

  predicate Less(a: string, b: string) {
    b != "" && (a == "" || a[0] < b[0] || (a[0] == b[0] && Less(a[1..], b[1..])))
  }

  /** One text sorts before another exactly when it is a proper beginning of it, or is the smaller at
      the first place where they differ. */
  lemma {:induction false} LessIff(a: string, b: string)
    ensures Less(a, b) <==> a < b || exists i :: FirstDiffer(a, b, i) && a[i] < b[i]
  {
    if a != "" && b != "" {
      if a[0] == b[0] {
        LessIff(a[1..], b[1..]);
        assert a == [a[0]] + a[1..] && b == [b[0]] + b[1..];
        assert forall i :: FirstDiffer(a[1..], b[1..], i) ==> FirstDiffer(a, b, i + 1);
        assert forall i :: FirstDiffer(a, b, i) ==> FirstDiffer(a[1..], b[1..], i - 1);
      } else {
        assert FirstDiffer(a, b, 0);
      }
    }
  }

  ghost predicate FirstDiffer(a: string, b: string, i: int) {
    0 <= i < |a| && i < |b| && a[i] != b[i] && a[..i] == b[..i]
  }

  lemma {:induction false} LessTotal(a: string, b: string)
    ensures Less(a, b) || a == b || Less(b, a)
  {
    if a != "" && b != "" && a[0] == b[0] {
      LessTotal(a[1..], b[1..]);
      assert a == [a[0]] + a[1..] && b == [b[0]] + b[1..];
    }
  }

  lemma {:induction false} LessTransitive(a: string, b: string, c: string)
    requires Less(a, b) && Less(b, c)
    ensures Less(a, c)
  {
    if a != "" && a[0] == b[0] == c[0] {
      LessTransitive(a[1..], b[1..], c[1..]);
    }
  }

  ghost predicate Increasing(s: seq<string>) {
    forall i, j :: 0 <= i < j < |s| ==> Less(s[i], s[j])
  }

  /** The distinct elements of `s`, in increasing order. */
  ghost predicate IsSortedSet(sorted: seq<string>, s: seq<string>) {
    Increasing(sorted) && forall x :: x in sorted <==> x in s
  }

  function Insert(sorted: seq<string>, x: string): seq<string> {
    if sorted == [] then [x]
    else if sorted[0] == x then sorted
    else if Less(x, sorted[0]) then [x] + sorted
    else [sorted[0]] + Insert(sorted[1..], x)
  }

  lemma {:induction false} InsertMembers(sorted: seq<string>, x: string)
    ensures forall y :: y in Insert(sorted, x) <==> y in sorted || y == x
  {
    if sorted != [] {
      InsertMembers(sorted[1..], x);
      assert sorted == [sorted[0]] + sorted[1..];
    }
  }

  lemma {:induction false} InsertIncreasing(sorted: seq<string>, x: string)
    requires Increasing(sorted)
    ensures Increasing(Insert(sorted, x))
  {
    if sorted != [] && sorted[0] != x {
      LessTotal(x, sorted[0]);
      if Less(x, sorted[0]) {
        forall i | 0 <= i < |sorted|
          ensures Less(x, sorted[i])
        {
          if i > 0 {
            LessTransitive(x, sorted[0], sorted[i]);
          }
        }
      } else {
        InsertIncreasing(sorted[1..], x);
        InsertMembers(sorted[1..], x);
        var rest := Insert(sorted[1..], x);
        forall i | 0 <= i < |rest|
          ensures Less(sorted[0], rest[i])
        {
          assert rest[i] in rest;
        }
      }
    }
  }

  function SortedSet(s: seq<string>): seq<string> {
    if s == [] then [] else Insert(SortedSet(s[..|s| - 1]), s[|s| - 1])
  }

  lemma {:induction false} SortedSetIs(s: seq<string>)
    ensures IsSortedSet(SortedSet(s), s)
  {
    if s != [] {
      var shorter := s[..|s| - 1];
      SortedSetIs(shorter);
      InsertIncreasing(SortedSet(shorter), s[|s| - 1]);
      InsertMembers(SortedSet(shorter), s[|s| - 1]);
      assert s == shorter + [s[|s| - 1]];
    }
  }
}
