// The string functions of Go's strings package that the gate uses: Index, Cut, HasPrefix, HasSuffix, Join.
module Text {

  predicate OccursAt(s: string, part: string, at: int) {
    0 <= at <= at + |part| <= |s| && s[at..at + |part|] == part
  }

  predicate HasPrefix(s: string, prefix: string) {
    |prefix| <= |s| && s[..|prefix|] == prefix
  }

  predicate HasSuffix(s: string, suffix: string) {
    |suffix| <= |s| && s[|s| - |suffix|..] == suffix
  }

  // The first place at or after from where the part occurs, or -1.
  function IndexFrom(s: string, part: string, from: nat): (at: int)
    requires from <= |s|
    ensures at == -1 || (from <= at && OccursAt(s, part, at))
    ensures forall i | from <= i <= |s| && OccursAt(s, part, i) :: 0 <= at <= i
    decreases |s| - from
  {
    if OccursAt(s, part, from) then from
    else if from == |s| then -1
    else IndexFrom(s, part, from + 1)
  }

  function Index(s: string, part: string): int {
    IndexFrom(s, part, 0)
  }

  datatype Pieces = Pieces(before: string, after: string, found: bool)

  // strings.Cut: the text around the first place the separator occurs.
  function Cut(s: string, separator: string): Pieces {
    var at := Index(s, separator);
    if at < 0 then Pieces(s, "", false) else Pieces(s[..at], s[at + |separator|..], true)
  }

  // strings.CutSuffix, as the text before the suffix and whether it was there.
  function CutSuffix(s: string, suffix: string): Pieces {
    if HasSuffix(s, suffix) then Pieces(s[..|s| - |suffix|], "", true) else Pieces(s, "", false)
  }

  function Join(parts: seq<string>, separator: string): string {
    if |parts| == 0 then ""
    else if |parts| == 1 then parts[0]
    else parts[0] + separator + Join(parts[1..], separator)
  }

  // Where the separator first occurs decides both pieces.
  lemma {:induction false} CutAtFirst(s: string, separator: string, at: nat)
    requires OccursAt(s, separator, at)
    requires forall i | 0 <= i < at :: !OccursAt(s, separator, i)
    ensures Cut(s, separator) == Pieces(s[..at], s[at + |separator|..], true)
  {
    assert Index(s, separator) == at;
  }

  lemma {:induction false} CutNowhere(s: string, separator: string)
    requires forall i | 0 <= i <= |s| :: !OccursAt(s, separator, i)
    ensures Cut(s, separator) == Pieces(s, "", false)
  {
  }

  lemma {:induction false} OneCharacter(s: string, c: char, at: nat)
    ensures OccursAt(s, [c], at) <==> at < |s| && s[at] == c
  {
    if at < |s| { assert s[at..at + 1] == [s[at]]; }
  }

  lemma {:induction false} CutAtCharacter(before: string, c: char, after: string)
    requires c !in before
    ensures Cut(before + [c] + after, [c]) == Pieces(before, after, true)
  {
    var s := before + [c] + after;
    OneCharacter(s, c, |before|);
    forall i | 0 <= i < |before|
      ensures !OccursAt(s, [c], i)
    {
      OneCharacter(s, c, i);
      assert s[i] == before[i];
    }
    CutAtFirst(s, [c], |before|);
    assert s[..|before|] == before;
    assert s[|before| + 1..] == after;
  }

  // ---- strings.Split by one character ----

  function Split(s: string, c: char): (parts: seq<string>)
    ensures parts != []
  {
    if s == "" then [""]
    else
      var rest := Split(s[1..], c);
      if s[0] == c then [""] + rest else [[s[0]] + rest[0]] + rest[1..]
  }

  // The text from a to b is one whole piece of s: no separator in it, and one, or an end of s, on each side.
  ghost predicate PieceAt(s: string, c: char, a: nat, b: nat, piece: string) {
    && a <= b <= |s| && s[a..b] == piece && c !in piece
    && (a == 0 || s[a - 1] == c) && (b == |s| || s[b] == c)
  }

  // The first piece runs up to the first separator.
  lemma {:induction false} FirstPiece(s: string, c: char)
    ensures var first := Split(s, c)[0]; PieceAt(s, c, 0, |first|, first)
  {
    if s != "" && s[0] != c {
      FirstPiece(s[1..], c);
      FirstGrows(s, c, Split(s[1..], c)[0]);
    }
  }

  lemma {:induction false} FirstGrows(s: string, c: char, rest: string)
    requires s != "" && s[0] != c && PieceAt(s[1..], c, 0, |rest|, rest)
    ensures PieceAt(s, c, 0, |rest| + 1, [s[0]] + rest)
  {
    assert s[..|rest| + 1] == [s[0]] + s[1..][..|rest|];
    assert |rest| + 1 < |s| ==> s[|rest| + 1] == s[1..][|rest|];
  }

  // The pieces are exactly the whole pieces.
  lemma {:induction false} PiecesOfSplit(s: string, c: char, piece: string)
    ensures piece in Split(s, c) <==> exists a, b :: PieceAt(s, c, a, b, piece)
  {
    if s == "" {
      if piece == "" { assert PieceAt(s, c, 0, 0, piece); }
    } else {
      PiecesOfSplit(s[1..], c, piece);
      if piece in Split(s, c) { PieceInSplit(s, c, piece); }
      if a, b :| PieceAt(s, c, a, b, piece) { InSplit(s, c, a, b, piece); }
    }
  }

  lemma {:induction false} PieceInSplit(s: string, c: char, piece: string)
    requires piece in Split(s, c)
    ensures exists a, b :: PieceAt(s, c, a, b, piece)
  {
    FirstPiece(s, c);
    var parts := Split(s, c);
    if piece != parts[0] {
      var k :| 0 < k < |parts| && parts[k] == piece;
      PieceInSplitTail(s, c, piece, k);
    }
  }

  // A piece of the text after the first character is a piece of the whole, one further on.
  lemma {:induction false} PieceFurther(s: string, c: char, a: nat, b: nat, piece: string)
    requires s != "" && PieceAt(s[1..], c, a, b, piece) && (a > 0 || s[0] == c)
    ensures PieceAt(s, c, a + 1, b + 1, piece)
  {
    var rest := s[1..];
    assert s[a + 1..b + 1] == rest[a..b];
    assert a > 0 ==> s[a] == rest[a - 1];
    assert b < |rest| ==> s[b + 1] == rest[b];
  }

  // A later piece starts after a separator.
  lemma {:induction false} PieceInSplitTail(s: string, c: char, piece: string, k: nat)
    requires 0 < k < |Split(s, c)| && Split(s, c)[k] == piece
    ensures exists a: nat, b: nat :: a > 0 && PieceAt(s, c, a, b, piece)
  {
    var rest := Split(s[1..], c);
    if s[0] == c {
      if k == 1 {
        FirstPiece(s[1..], c);
        PieceFurther(s, c, 0, |piece|, piece);
      } else {
        PieceInSplitTail(s[1..], c, piece, k - 1);
        var a: nat, b: nat :| a > 0 && PieceAt(s[1..], c, a, b, piece);
        PieceFurther(s, c, a, b, piece);
      }
    } else {
      PieceInSplitTail(s[1..], c, piece, k);
      var a: nat, b: nat :| a > 0 && PieceAt(s[1..], c, a, b, piece);
      PieceFurther(s, c, a, b, piece);
    }
  }

  lemma {:induction false} InSplit(s: string, c: char, a: nat, b: nat, piece: string)
    requires PieceAt(s, c, a, b, piece)
    ensures piece in Split(s, c)
    ensures a > 0 ==> exists k :: 0 < k < |Split(s, c)| && Split(s, c)[k] == piece
    ensures a == 0 ==> Split(s, c)[0] == piece
  {
    if s != "" {
      var rest := Split(s[1..], c);
      if a > 0 {
        assert PieceAt(s[1..], c, a - 1, b - 1, piece);
        InSplit(s[1..], c, a - 1, b - 1, piece);
        if a == 1 {
          assert s[0] == c && Split(s, c) == [""] + rest;
          assert Split(s, c)[1] == rest[0] == piece;
        } else {
          var k :| 0 < k < |rest| && rest[k] == piece;
          assert Split(s, c)[if s[0] == c then k + 1 else k] == piece;
        }
      } else if s[0] != c {
        assert b > 0;
        assert PieceAt(s[1..], c, 0, b - 1, piece[1..]);
        InSplit(s[1..], c, 0, b - 1, piece[1..]);
        assert piece == [s[0]] + piece[1..];
      }
    }
  }

  lemma {:induction false} PiecesHaveNoSeparator(s: string, c: char)
    ensures forall piece | piece in Split(s, c) :: c !in piece
  {
    if s != "" {
      PiecesHaveNoSeparator(s[1..], c);
      var rest := Split(s[1..], c);
      assert rest[0] in rest;
    }
  }

  // Joining undoes splitting.
  lemma {:induction false} SplitThenJoin(s: string, c: char)
    ensures Join(Split(s, c), [c]) == s
  {
    if s != "" {
      var rest := Split(s[1..], c);
      SplitThenJoin(s[1..], c);
      assert s == [s[0]] + s[1..];
      if s[0] == c {
        assert ([""] + rest)[1..] == rest;
        assert Join([""] + rest, [c]) == "" + [c] + Join(rest, [c]);
      } else {
        JoinFirst(s[0], rest, c);
      }
    }
  }

  lemma {:induction false} JoinFirst(first: char, parts: seq<string>, c: char)
    requires parts != []
    ensures Join([[first] + parts[0]] + parts[1..], [c]) == [first] + Join(parts, [c])
  {
    var longer := [[first] + parts[0]] + parts[1..];
    assert longer[1..] == parts[1..];
  }

  // Splitting undoes joining parts that have no separator.
  lemma {:induction false} JoinThenSplit(parts: seq<string>, c: char)
    requires parts != [] && forall part | part in parts :: c !in part
    ensures Split(Join(parts, [c]), c) == parts
    decreases parts
  {
    if |parts| == 1 {
      SplitAlone(parts[0], c);
      assert parts == [parts[0]];
    } else {
      JoinThenSplit(parts[1..], c);
      SplitAfterFirst(parts[0], Join(parts[1..], [c]), c);
      assert parts == [parts[0]] + parts[1..];
      assert Join(parts, [c]) == parts[0] + ([c] + Join(parts[1..], [c]));
    }
  }

  lemma {:induction false} SplitAlone(s: string, c: char)
    requires c !in s
    ensures Split(s, c) == [s]
  {
    if s != "" {
      SplitAlone(s[1..], c);
      assert s == [s[0]] + s[1..];
    }
  }

  lemma {:induction false} SplitAfterFirst(part: string, rest: string, c: char)
    requires c !in part
    ensures Split(part + ([c] + rest), c) == [part] + Split(rest, c)
  {
    var s := part + ([c] + rest);
    if part == "" {
      assert s == [c] + rest;
      assert s[1..] == rest;
    } else {
      assert s[1..] == part[1..] + ([c] + rest);
      SplitAfterFirst(part[1..], rest, c);
      assert part == [part[0]] + part[1..];
    }
  }
}
