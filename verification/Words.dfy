// Texts made of words with one space between them, and where a pattern that starts with a space occurs in one.
module Words {
  import opened Text

  predicate Word(w: string) { ' ' !in w }

  ghost predicate AllWords(ws: seq<string>) {
    forall i | 0 <= i < |ws| :: Word(ws[i])
  }

  function Spell(ws: seq<string>): string
    requires ws != []
  {
    if |ws| == 1 then ws[0] else ws[0] + " " + Spell(ws[1..])
  }

  lemma {:induction false} PrefixCharacter(s: string, prefix: string, j: nat)
    requires HasPrefix(s, prefix) && j < |prefix|
    ensures s[j] == prefix[j]
  {
    assert s[j] == s[..|prefix|][j];
  }

  // A whole word with a space after it, in front of a text whose first word is w.
  lemma {:induction false} WholeWord(w: string, tail: string, m: string, rest: string)
    requires Word(w) && Word(m)
    ensures HasPrefix(w + " " + tail, m + " " + rest) <==> w == m && HasPrefix(tail, rest)
  {
    var text, prefix := w + " " + tail, m + " " + rest;
    if HasPrefix(text, prefix) {
      if |w| < |m| { PrefixCharacter(text, prefix, |w|); }
      if |m| < |w| { PrefixCharacter(text, prefix, |m|); }
      assert |w| == |m|;
      assert w == text[..|w|] == text[..|prefix|][..|w|] == prefix[..|m|] == m;
      assert tail[..|rest|] == text[..|prefix|][|m| + 1..];
      assert rest == prefix[|m| + 1..];
    }
    if w == m && HasPrefix(tail, rest) {
      assert text[..|prefix|] == w + " " + tail[..|rest|];
    }
  }

  // A pattern's first word is matched whole, when a space follows it in the pattern.
  lemma {:induction false} WholeWordFirst(ws: seq<string>, m: string, rest: string)
    requires ws != [] && AllWords(ws) && Word(m)
    ensures HasPrefix(Spell(ws), m + " " + rest) <==> |ws| > 1 && ws[0] == m && HasPrefix(Spell(ws[1..]), rest)
  {
    if |ws| > 1 {
      WholeWord(ws[0], Spell(ws[1..]), m, rest);
    } else if HasPrefix(ws[0], m + " " + rest) {
      PrefixCharacter(ws[0], m + " " + rest, |m|);
    }
  }

  // The last piece of a pattern, with no space in it, is a prefix of a word.
  lemma {:induction false} PartWordFirst(ws: seq<string>, part: string)
    requires ws != [] && AllWords(ws) && Word(part)
    ensures HasPrefix(Spell(ws), part) <==> HasPrefix(ws[0], part)
  {
    var text := Spell(ws);
    if |ws| > 1 {
      assert text[..|ws[0]|] == ws[0] && text[|ws[0]|] == ' ';
      if |part| <= |ws[0]| {
        assert text[..|part|] == ws[0][..|part|];
      }
    }
  }

  // A pattern that starts with a space occurs right after a first word, or in what follows it.
  lemma {:induction false} OccursAfterWord(w: string, tail: string, q: string, i: nat)
    requires Word(w)
    ensures OccursAt(w + " " + tail, " " + q, i) <==>
      (i == |w| && HasPrefix(tail, q)) || (i > |w| && OccursAt(tail, " " + q, i - |w| - 1))
  {
    var text, p := w + " " + tail, " " + q;
    if i + |p| <= |text| {
      var piece := text[i..i + |p|];
      if i < |w| {
        assert piece[0] == w[i] && p[0] == ' ';
      } else if i == |w| {
        assert piece == " " + tail[..|q|];
        assert piece[1..] == tail[..|q|] && p[1..] == q;
      } else {
        assert piece == tail[i - |w| - 1..i - |w| - 1 + |p|];
      }
    }
  }

  lemma {:induction false} OccursInNoWord(w: string, q: string, i: nat)
    requires Word(w)
    ensures !OccursAt(w, " " + q, i)
  {
    if i + |q| + 1 <= |w| {
      assert w[i..i + |q| + 1][0] == w[i] && (" " + q)[0] == ' ';
    }
  }

  lemma {:induction false} IndexAfterWord(w: string, tail: string, q: string)
    requires Word(w)
    ensures Index(w + " " + tail, " " + q) ==
      if HasPrefix(tail, q) then |w|
      else if Index(tail, " " + q) < 0 then -1
      else |w| + 1 + Index(tail, " " + q)
  {
    var text, p, n := w + " " + tail, " " + q, |w|;
    var at, found := Index(tail, p), Index(text, p);
    if found >= 0 { OccursAfterWord(w, tail, q, found); }
    OccursAfterWord(w, tail, q, n);
    if at >= 0 { OccursAfterWord(w, tail, q, n + 1 + at); }
  }

  // Where a pattern that starts with a space is cut: before the first word, after the first, that it starts.
  lemma {:induction false} CutAfterWord(w: string, tail: string, q: string)
    requires Word(w)
    ensures
      var cut, later := Cut(w + " " + tail, " " + q), Cut(tail, " " + q);
      if HasPrefix(tail, q) then cut == Pieces(w, tail[|q|..], true)
      else cut.found == later.found && (cut.found ==> cut == Pieces(w + " " + later.before, later.after, true))
  {
    IndexAfterWord(w, tail, q);
    if HasPrefix(tail, q) {
      CutRightThere(w, tail, q);
    } else if Index(tail, " " + q) >= 0 {
      AfterSpace(w, tail, Index(tail, " " + q), |q| + 1);
    }
  }

  lemma {:induction false} CutRightThere(w: string, tail: string, q: string)
    requires HasPrefix(tail, q) && Index(w + " " + tail, " " + q) == |w|
    ensures Cut(w + " " + tail, " " + q) == Pieces(w, tail[|q|..], true)
  {
    AfterSpace(w, tail, 0, |q|);
    AroundSpace(w, tail, |w|);
  }

  lemma {:induction false} CutBeforeWord(ws: seq<string>, q: string)
    requires ws != [] && AllWords(ws)
    ensures
      var cut := Cut(Spell(ws), " " + q);
      if |ws| == 1 then !cut.found
      else if HasPrefix(Spell(ws[1..]), q) then cut == Pieces(ws[0], Spell(ws[1..])[|q|..], true)
      else
        var later := Cut(Spell(ws[1..]), " " + q);
        cut.found == later.found && (cut.found ==> cut == Pieces(ws[0] + " " + later.before, later.after, true))
  {
    if |ws| == 1 {
      forall i | 0 <= i <= |ws[0]|
        ensures !OccursAt(ws[0], " " + q, i)
      {
        OccursInNoWord(ws[0], q, i);
      }
    } else {
      CutAfterWord(ws[0], Spell(ws[1..]), q);
    }
  }

  // Neither does it occur when no word after the first starts it.
  lemma {:induction false} CutNowhereInWords(ws: seq<string>, q: string)
    requires ws != [] && AllWords(ws)
    requires forall k | 1 <= k < |ws| :: !HasPrefix(Spell(ws[k..]), q)
    ensures !Cut(Spell(ws), " " + q).found
    decreases |ws|
  {
    CutBeforeWord(ws, q);
    if |ws| > 1 {
      var tail := ws[1..];
      forall k | 1 <= k < |tail|
        ensures !HasPrefix(Spell(tail[k..]), q)
      {
        assert tail[k..] == ws[k + 1..];
      }
      assert ws[1..] == tail;
      CutNowhereInWords(tail, q);
    }
  }

  // A two-word pattern with a space after it needs the two words side by side.
  lemma {:induction false} NoPair(ws: seq<string>, m: string, next: string, rest: string)
    requires ws != [] && AllWords(ws) && Word(m) && Word(next)
    requires forall k | 1 <= k < |ws| - 1 :: !(ws[k] == m && ws[k + 1] == next)
    ensures !Cut(Spell(ws), " " + (m + " " + (next + " " + rest))).found
  {
    var q := m + " " + (next + " " + rest);
    forall k | 1 <= k < |ws|
      ensures !HasPrefix(Spell(ws[k..]), q)
    {
      WholeWordFirst(ws[k..], m, next + " " + rest);
      if k < |ws| - 1 {
        assert ws[k..][1..] == ws[k + 1..];
        WholeWordFirst(ws[k + 1..], next, rest);
      }
    }
    CutNowhereInWords(ws, q);
  }

  // A pattern of a space and a part of a word needs a word, after the first, that the part starts.
  lemma {:induction false} NoPart(ws: seq<string>, part: string)
    requires ws != [] && AllWords(ws) && Word(part)
    requires forall k | 1 <= k < |ws| :: !HasPrefix(ws[k], part)
    ensures !Cut(Spell(ws), " " + part).found
  {
    forall k | 1 <= k < |ws|
      ensures !HasPrefix(Spell(ws[k..]), part)
    {
      PartWordFirst(ws[k..], part);
    }
    CutNowhereInWords(ws, part);
  }

  // A pattern that starts with a space is found right after a first word that it follows.
  lemma {:induction false} CutRightAfterWord(w: string, q: string, rest: string)
    requires Word(w)
    ensures Cut(w + (" " + q) + rest, " " + q) == Pieces(w, rest, true)
  {
    var tail := q + rest;
    assert w + (" " + q) + rest == w + " " + tail;
    assert tail[..|q|] == q && tail[|q|..] == rest;
    CutAfterWord(w, tail, q);
  }

  // A pattern that ends with a space, with none before, is found at the end of a first word, or in what follows it.
  lemma {:induction false} OccursBeforeSpace(w: string, tail: string, e: string, i: nat)
    requires Word(w) && Word(e)
    ensures OccursAt(w + " " + tail, e + " ", i) <==>
      (i + |e| == |w| && HasSuffix(w, e)) || (i > |w| && OccursAt(tail, e + " ", i - |w| - 1))
  {
    var text, p := w + " " + tail, e + " ";
    if i + |p| <= |text| {
      var piece := text[i..i + |p|];
      assert piece[|e|] == text[i + |e|] && p[|e|] == ' ';
      if i + |e| < |w| {
        assert text[i + |e|] == w[i + |e|];
      } else if i + |e| == |w| {
        assert piece == w[i..] + " ";
        assert piece[..|e|] == w[i..] && p[..|e|] == e;
      } else if i <= |w| {
        assert piece[|w| - i] == ' ';
        assert p[|w| - i] == e[|w| - i];
      } else {
        assert piece == tail[i - |w| - 1..i - |w| - 1 + |p|];
      }
    }
  }

  lemma {:induction false} IndexBeforeSpace(w: string, tail: string, e: string)
    requires Word(w) && Word(e)
    ensures Index(w + " " + tail, e + " ") ==
      if HasSuffix(w, e) then |w| - |e|
      else if Index(tail, e + " ") < 0 then -1
      else |w| + 1 + Index(tail, e + " ")
  {
    var text, p, n := w + " " + tail, e + " ", |w|;
    var found, at := Index(text, p), Index(tail, p);
    if found >= 0 { OccursBeforeSpace(w, tail, e, found); }
    if |e| <= n { OccursBeforeSpace(w, tail, e, n - |e|); }
    if at >= 0 { OccursBeforeSpace(w, tail, e, n + 1 + at); }
  }

  // The cut at such a pattern: at the end of the first word, or later.
  lemma {:induction false} CutBeforeSpace(w: string, tail: string, e: string)
    requires Word(w) && Word(e)
    ensures
      var cut, later := Cut(w + " " + tail, e + " "), Cut(tail, e + " ");
      if HasSuffix(w, e) then cut == Pieces(w[..|w| - |e|], tail, true)
      else cut.found == later.found && (cut.found ==> cut == Pieces(w + " " + later.before, later.after, true))
  {
    var p := e + " ";
    IndexBeforeSpace(w, tail, e);
    var at := Index(tail, p);
    if HasSuffix(w, e) {
      AroundSpace(w, tail, |w| - |e|);
    } else if at >= 0 {
      AfterSpace(w, tail, at, |p|);
    }
  }

  lemma {:induction false} AroundSpace(w: string, tail: string, i: nat)
    requires i <= |w|
    ensures (w + " " + tail)[..i] == w[..i] && (w + " " + tail)[|w| + 1..] == tail
  {
  }

  lemma {:induction false} AfterSpace(w: string, tail: string, at: nat, size: nat)
    requires at + size <= |tail|
    ensures (w + " " + tail)[..|w| + 1 + at] == w + " " + tail[..at]
    ensures (w + " " + tail)[|w| + 1 + at + size..] == tail[at + size..]
  {
  }

  lemma {:induction false} NoSpaceNoOccurrence(w: string, e: string, i: nat)
    requires Word(w)
    ensures !OccursAt(w, e + " ", i)
  {
    if i + |e| + 1 <= |w| {
      assert w[i..i + |e| + 1][|e|] == w[i + |e|];
      assert (e + " ")[|e|] == ' ';
    }
  }

  lemma {:induction false} NoSpaceNoCut(w: string, e: string)
    requires Word(w)
    ensures !Cut(w, e + " ").found
  {
    forall i | 0 <= i <= |w|
      ensures !OccursAt(w, e + " ", i)
    {
      NoSpaceNoOccurrence(w, e, i);
    }
    CutNowhere(w, e + " ");
  }

  // The first word, after the first, at which the text goes on with q is where the pattern is cut.
  lemma {:induction false} CutAtWord(ws: seq<string>, k: nat, q: string)
    requires AllWords(ws) && 1 <= k < |ws|
    requires forall j | 1 <= j < k :: !HasPrefix(Spell(ws[j..]), q)
    requires HasPrefix(Spell(ws[k..]), q)
    ensures Cut(Spell(ws), " " + q).found
    ensures Cut(Spell(ws), " " + q).after == Spell(ws[k..])[|q|..]
    decreases k
  {
    CutBeforeWord(ws, q);
    if k > 1 {
      var tail := ws[1..];
      forall j | 1 <= j < k - 1
        ensures !HasPrefix(Spell(tail[j..]), q)
      {
        assert tail[j..] == ws[j + 1..];
      }
      assert tail[k - 1..] == ws[k..];
      CutAtWord(tail, k - 1, q);
    }
  }

  // The first word that ends so, with a word after it, is where the pattern is cut.
  lemma {:induction false} CutAtEnd(ws: seq<string>, k: nat, e: string)
    requires AllWords(ws) && Word(e) && k < |ws| - 1
    requires forall j | 0 <= j < k :: !HasSuffix(ws[j], e)
    requires HasSuffix(ws[k], e)
    ensures Cut(Spell(ws), e + " ") == Pieces(Spell(ws[..k] + [ws[k][..|ws[k]| - |e|]]), Spell(ws[k + 1..]), true)
    decreases k
  {
    var tail, last := ws[1..], ws[k][..|ws[k]| - |e|];
    if k == 0 {
      CutBeforeSpace(ws[0], Spell(tail), e);
      assert ws[..0] + [last] == [last];
    } else {
      CutAtEnd(tail, k - 1, e);
      assert tail[k..] == ws[k + 1..];
      CutLater(ws[0], Spell(tail), e, Spell(tail[..k - 1] + [last]), Spell(ws[k + 1..]));
      OneWordMore(ws, k, last);
    }
  }

  lemma {:induction false} CutLater(w: string, tail: string, e: string, before: string, after: string)
    requires Word(w) && Word(e) && !HasSuffix(w, e) && Cut(tail, e + " ") == Pieces(before, after, true)
    ensures Cut(w + " " + tail, e + " ") == Pieces(w + " " + before, after, true)
  {
    CutBeforeSpace(w, tail, e);
  }

  // The words before, with the last one cut, in front of which one more word stands.
  lemma {:induction false} OneWordMore(ws: seq<string>, k: nat, last: string)
    requires 0 < k < |ws|
    ensures Spell(ws[..k] + [last]) == ws[0] + " " + Spell(ws[1..][..k - 1] + [last])
  {
    assert (ws[..k] + [last])[1..] == ws[1..][..k - 1] + [last];
  }

  lemma {:induction false} NoEnd(ws: seq<string>, e: string)
    requires ws != [] && AllWords(ws) && Word(e)
    requires forall j | 0 <= j < |ws| - 1 :: !HasSuffix(ws[j], e)
    ensures !Cut(Spell(ws), e + " ").found
    decreases |ws|
  {
    if |ws| == 1 {
      NoSpaceNoCut(ws[0], e);
    } else {
      CutBeforeSpace(ws[0], Spell(ws[1..]), e);
      NoEnd(ws[1..], e);
    }
  }
}
