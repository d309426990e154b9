// internal/assure/decision.go: reading a reason gives back the section and the key it was written with.
module ReadReasons {
  import opened Coverage
  import opened Decision
  import opened Order
  import opened Reasons
  import opened Text
  import opened Words
  import opened Wrappers

  const FAULT_MARK := "(ST-STD-CODE-R"

  // ---- The fixed words ----

  lemma {:induction false} CodeRuleWords()
    ensures CODE_RULE == " " + FAULT_MARK && Word(FAULT_MARK)
  {
  }

  lemma {:induction false} NoObligationWords()
    ensures NO_OBLIGATION == "no" + " " + ("obligation" + " " + "at ")
    ensures Word("no") && Word("obligation")
  {
  }

  lemma {:induction false} NoProofRunWords()
    ensures NO_VERIFIED_PROOF_RUN == "no" + " " + ("verified" + " " + "proof run at ")
    ensures Word("no") && Word("verified")
  {
  }

  lemma {:induction false} FellFromWords()
    ensures FELL_FROM == " " + ("fell" + " " + ("from" + " " + ""))
    ensures Word("fell") && Word("from")
  {
  }

  lemma {:induction false} ShareTextIsAWord(share: Share)
    ensures Word(ShareText(share)) && ShareNamed(ShareText(share)) == Some(share)
  {
    assert ShareText(Designed)[0] == 'd' && ShareText(Built)[0] == 'b' && ShareText(Proved)[0] == 'p';
  }

  // A different first character is enough for a word not to start another.
  lemma {:induction false} OtherFirst(w: string, part: string)
    requires part != "" && (w == "" || w[0] != part[0])
    ensures !HasPrefix(w, part)
  {
    assert |w| >= |part| ==> w[..|part|][0] == w[0];
  }

  // ---- What a text of words is not ----

  lemma {:induction false} NotFixedStart(ws: seq<string>, first: string, second: string, rest: string)
    requires |ws| > 1 && AllWords(ws) && Word(first) && Word(second)
    requires ws[1] != second
    ensures !HasPrefix(Spell(ws), first + " " + (second + " " + rest))
  {
    WholeWordFirst(ws, first, second + " " + rest);
    WholeWordFirst(ws[1..], second, rest);
  }

  lemma {:induction false} NotAFixedReason(ws: seq<string>)
    requires |ws| > 1 && AllWords(ws)
    requires ws[1] != "obligation" && ws[1] != "verified"
    ensures !HasPrefix(Spell(ws), NO_OBLIGATION) && !HasPrefix(Spell(ws), NO_VERIFIED_PROOF_RUN)
  {
    NoObligationWords();
    NoProofRunWords();
    NotFixedStart(ws, "no", "obligation", "at ");
    NotFixedStart(ws, "no", "verified", "proof run at ");
  }

  lemma {:induction false} NoFaultMark(ws: seq<string>, mark: string)
    requires ws != [] && AllWords(ws)
    requires mark == FAULT_MARK
    requires forall k | 1 <= k < |ws| :: !HasPrefix(ws[k], mark)
    ensures !Cut(Spell(ws), CODE_RULE).found
  {
    CodeRuleWords();
    NoPart(ws, mark);
  }

  lemma {:induction false} NoFaultKey(reason: string)
    requires !Cut(reason, CODE_RULE).found
    ensures CodeFaultKey(reason) == None
  {
  }

  // The end of a text decides its suffix: two characters from the end, the base head has an a.
  lemma {:induction false} EndsOtherwise(text: string)
    requires |text| > 1 && text[|text| - 2] != 'a'
    ensures !HasSuffix(text, DIFFERS_FROM_BASE)
  {
    var n := |DIFFERS_FROM_BASE|;
    assert DIFFERS_FROM_BASE[n - 2] == 'a';
    assert |text| >= n ==> text[|text| - n..][n - 2] == text[|text| - 2];
  }

  lemma {:induction false} ShareEndsOtherwise(front: string, share: Share)
    ensures !HasSuffix(front + ShareText(share), DIFFERS_FROM_BASE)
  {
    EndsOtherwise(front + ShareText(share));
  }

  // ---- The obligation that fell ----

  lemma {:induction false} SpellOf2(a: string, b: string)
    ensures Spell([a, b]) == a + " " + b
  {
    assert [a, b][1..] == [b];
  }

  lemma {:induction false} SpellOf3(a: string, b: string, c: string)
    ensures Spell([a, b, c]) == a + " " + (b + " " + c)
  {
    assert [a, b, c][1..] == [b, c];
    SpellOf2(b, c);
  }

  lemma {:induction false} SpellOf4(a: string, b: string, c: string, d: string)
    ensures Spell([a, b, c, d]) == a + " " + (b + " " + (c + " " + d))
    ensures Spell([a, b, c, d][1..]) == b + " " + (c + " " + d)
  {
    assert [a, b, c, d][1..] == [b, c, d];
    SpellOf3(b, c, d);
  }

  lemma {:induction false} FellWords(obligation: string, share: Share, ws: seq<string>)
    requires Word(obligation)
    requires ws == [obligation, "fell", "from", ShareText(share)]
    ensures AllWords(ws) && FellReason(obligation, share) == Spell(ws)
    ensures Cut(FellReason(obligation, share), FELL_FROM) == Pieces(obligation, ShareText(share), true)
  {
    FellFromWords();
    ShareTextIsAWord(share);
    FellIsSpelled(obligation, ShareText(share));
    CutAtMark(obligation, FELL_FROM, "fell" + " " + ("from" + " " + ""), ShareText(share));
  }

  lemma {:induction false} FellIsSpelled(obligation: string, text: string)
    ensures obligation + FELL_FROM + text == Spell([obligation, "fell", "from", text])
  {
    FellFromWords();
    SpellOf4(obligation, "fell", "from", text);
  }

  // A text is cut at a mark that starts with a space right after a word.
  lemma {:induction false} CutAtMark(w: string, mark: string, part: string, rest: string)
    requires Word(w) && mark == " " + part
    ensures Cut(w + mark + rest, mark) == Pieces(w, rest, true)
  {
    CutRightAfterWord(w, part, rest);
  }

  // An obligation that fell is read as that obligation and that share.
  lemma {:induction false} ReadFell(obligation: string, share: Share)
    requires Word(obligation)
    ensures ReasonOrder(FellReason(obligation, share)) == Place(Section.Obligations, ShareKey(obligation, share))
  {
    var ws := [obligation, "fell", "from", ShareText(share)];
    FellWords(obligation, share, ws);
    ShareTextIsAWord(share);
    ShareEndsOtherwise(obligation + FELL_FROM, share);
    NotAFixedReason(ws);
    forall k | 1 <= k < |ws|
      ensures !HasPrefix(ws[k], FAULT_MARK)
    {
      OtherFirst(ws[k], FAULT_MARK);
    }
    NoFaultMark(ws, FAULT_MARK);
    NoFaultKey(FellReason(obligation, share));
  }

  // ---- The obligation a retirement takes to a successor that lacks a share ----

  lemma {:induction false} RetiredByWords()
    ensures RETIRED_BY == " " + ("is" + " " + ("retired" + " " + ("by" + " " + "")))
    ensures Word("is") && Word("retired") && Word("by")
    ensures BUT_ITS_SUCCESSOR == "," + " " + ("but" + " " + ("its" + " " + ("successor" + " " + "")))
    ensures Word("but") && Word("its") && Word("successor")
    ensures IS_NOT == " " + ("is" + " " + ("not" + " " + ""))
    ensures Word("not")
  {
  }

  // The words of a share's end: successor is not designed.
  function EndWords(successor: string, share: Share): seq<string> {
    [successor, "is", "not", ShareText(share)]
  }

  lemma {:induction false} EndIsSpelled(successor: string, share: Share)
    requires Word(successor)
    ensures AllWords(EndWords(successor, share))
    ensures Spell(EndWords(successor, share)) == successor + IS_NOT + ShareText(share)
  {
    RetiredByWords();
    ShareTextIsAWord(share);
    SpellOf4(successor, "is", "not", ShareText(share));
    assert successor + IS_NOT + ShareText(share) == successor + " " + ("is" + " " + ("not" + " " + ShareText(share)));
  }

  // The words from the retirement on: retirement, but its successor ...
  function MiddleWords(retirement: string, successor: string, share: Share): seq<string> {
    [retirement + ",", "but", "its", "successor"] + EndWords(successor, share)
  }

  lemma {:induction false} SpellOfMore(a: string, more: seq<string>)
    requires more != []
    ensures Spell([a] + more) == a + " " + Spell(more)
  {
    assert ([a] + more)[1..] == more;
  }

  lemma {:induction false} MiddleIsSpelled(retirement: string, successor: string, share: Share)
    requires Word(retirement) && Word(successor)
    ensures AllWords(MiddleWords(retirement, successor, share))
    ensures Spell(MiddleWords(retirement, successor, share)) ==
      retirement + BUT_ITS_SUCCESSOR + successor + IS_NOT + ShareText(share)
  {
    MiddleAreWords(retirement);
    EndIsSpelled(successor, share);
    var end := EndWords(successor, share);
    MiddleText(retirement, successor + IS_NOT + ShareText(share));
    SpellFourBefore(retirement + ",", "but", "its", "successor", end);
    assert retirement + BUT_ITS_SUCCESSOR + successor + IS_NOT + ShareText(share) ==
      retirement + BUT_ITS_SUCCESSOR + (successor + IS_NOT + ShareText(share));
  }

  lemma {:induction false} SpellFourBefore(a: string, b: string, c: string, d: string, more: seq<string>)
    requires more != []
    ensures Spell([a, b, c, d] + more) == a + " " + (b + " " + (c + " " + (d + " " + Spell(more))))
  {
    SpellOfMore(d, more);
    SpellOfMore(c, [d] + more);
    SpellOfMore(b, [c] + ([d] + more));
    SpellOfMore(a, [b] + ([c] + ([d] + more)));
    assert [a, b, c, d] + more == [a] + ([b] + ([c] + ([d] + more)));
  }

  lemma {:induction false} MiddleAreWords(retirement: string)
    requires Word(retirement)
    ensures Word(retirement + ",") && Word("but") && Word("its") && Word("successor")
  {
  }

  lemma {:induction false} MiddleText(retirement: string, rest: string)
    ensures retirement + BUT_ITS_SUCCESSOR + rest ==
      retirement + "," + " " + ("but" + " " + ("its" + " " + ("successor" + " " + rest)))
  {
  }

  function RetiredWords(obligation: string, retirement: string, successor: string, share: Share): seq<string> {
    [obligation, "is", "retired", "by"] + MiddleWords(retirement, successor, share)
  }

  lemma {:induction false} RetiredText(obligation: string, retirement: string, successor: string, share: Share)
    ensures RetiredReason(obligation, retirement, successor, share) ==
      obligation + RETIRED_BY + (retirement + BUT_ITS_SUCCESSOR + successor + IS_NOT + ShareText(share))
  {
    Regroup(obligation + RETIRED_BY, retirement, BUT_ITS_SUCCESSOR, successor, IS_NOT, ShareText(share));
  }

  lemma {:induction false} Regroup(a: string, b: string, c: string, d: string, e: string, f: string)
    ensures a + b + c + d + e + f == a + (b + c + d + e + f)
  {
  }

  // Four words in front of more words.
  lemma {:induction false} SpellFourMore(a: string, b: string, c: string, d: string, more: seq<string>)
    requires more != []
    ensures Spell([a, b, c, d] + more) == a + (" " + (b + " " + (c + " " + (d + " " + "")))) + Spell(more)
    ensures Spell(([a, b, c, d] + more)[1..]) == (b + " " + (c + " " + (d + " " + ""))) + Spell(more)
  {
    SpellOfMore(d, more);
    SpellOfMore(c, [d] + more);
    SpellOfMore(b, [c] + ([d] + more));
    SpellOfMore(a, [b] + ([c] + ([d] + more)));
    assert [a, b, c, d] + more == [a] + ([b] + ([c] + ([d] + more)));
    assert ([a, b, c, d] + more)[1..] == [b] + ([c] + ([d] + more));
  }

  lemma {:induction false} RetiredIsSpelled(obligation: string, retirement: string, successor: string, share: Share)
    requires Word(obligation) && Word(retirement) && Word(successor)
    ensures AllWords(RetiredWords(obligation, retirement, successor, share))
    ensures RetiredReason(obligation, retirement, successor, share) == Spell(RetiredWords(obligation, retirement, successor, share))
  {
    RetiredByWords();
    MiddleIsSpelled(retirement, successor, share);
    RetiredText(obligation, retirement, successor, share);
    SpellFourMore(obligation, "is", "retired", "by", MiddleWords(retirement, successor, share));
  }

  // What CodeFaultKey reads, from inside the parenthesis on.
  function ReadKey(text: string): Option<FaultKey> {
    var inner := Cut(text, "): ");
    var parts := Cut(inner.before, ", ");
    if !inner.found || !parts.found || ' ' in parts.before || parts.after == "" then None
    else Some(FaultKey(parts.before, parts.after))
  }

  lemma {:induction false} FaultKeyAfterMark(reason: string)
    requires Cut(reason, CODE_RULE).found
    ensures CodeFaultKey(reason) == ReadKey(FAULT_MARK[1..] + Cut(reason, CODE_RULE).after)
  {
    var at := Index(reason, CODE_RULE);
    CodeRuleWords();
    assert reason[at..] == CODE_RULE + reason[at + |CODE_RULE|..];
    assert reason[at + 2..] == reason[at..][2..];
    assert reason[at + 2..] == FAULT_MARK[1..] + Cut(reason, CODE_RULE).after;
  }

  lemma {:induction false} FaultPieces()
    ensures "): " == "):" + " " && Word("):") && ", " == "," + " " && Word(",")
  {
  }

  // A word with a comma after it starts with the mark exactly when the word does.
  lemma {:induction false} CommaAfterMark(w: string)
    ensures HasPrefix(w + ",", FAULT_MARK) <==> HasPrefix(w, FAULT_MARK)
  {
    var n := |FAULT_MARK|;
    assert FAULT_MARK[n - 1] == 'R';
    if |w| >= n {
      assert (w + ",")[..n] == w[..n];
    } else if |w| == n - 1 {
      assert (w + ",")[..n][n - 1] == ',';
    }
  }

  lemma {:induction false} MiddleStartsWith(retirement: string, successor: string, share: Share, k: nat)
    requires Word(retirement) && Word(successor) && k < |MiddleWords(retirement, successor, share)|
    ensures HasPrefix(MiddleWords(retirement, successor, share)[k], FAULT_MARK) <==>
      (k == 0 && HasPrefix(retirement, FAULT_MARK)) || (k == 4 && HasPrefix(successor, FAULT_MARK))
  {
    var ws := MiddleWords(retirement, successor, share);
    CommaAfterMark(retirement);
    ShareTextIsAWord(share);
    if k != 0 && k != 4 { OtherFirst(ws[k], FAULT_MARK); }
  }

  lemma {:induction false} RetiredStartsWith(obligation: string, retirement: string, successor: string, share: Share,
          k: nat)
    requires Word(obligation) && Word(retirement) && Word(successor)
    requires 1 <= k < |RetiredWords(obligation, retirement, successor, share)|
    ensures HasPrefix(Spell(RetiredWords(obligation, retirement, successor, share)[k..]), FAULT_MARK) <==>
      (k == 4 && HasPrefix(retirement, FAULT_MARK)) || (k == 8 && HasPrefix(successor, FAULT_MARK))
  {
    var ws := RetiredWords(obligation, retirement, successor, share);
    RetiredIsSpelled(obligation, retirement, successor, share);
    CodeRuleWords();
    PartWordFirst(ws[k..], FAULT_MARK);
    assert ws[k..][0] == ws[k];
    if k >= 4 {
      assert ws[k] == MiddleWords(retirement, successor, share)[k - 4];
      MiddleStartsWith(retirement, successor, share, k - 4);
    } else {
      OtherFirst(ws[k], FAULT_MARK);
    }
  }

  // Taking the mark's first character off the front, and reading on.
  lemma {:induction false} MarkThenRest(ws: seq<string>)
    requires ws != [] && AllWords(ws) && HasPrefix(ws[0], FAULT_MARK)
    ensures HasPrefix(Spell(ws), FAULT_MARK)
    ensures FAULT_MARK[1..] + Spell(ws)[|FAULT_MARK|..] == Spell([ws[0][1..]] + ws[1..])
    ensures AllWords([ws[0][1..]] + ws[1..])
  {
    CodeRuleWords();
    PartWordFirst(ws, FAULT_MARK);
    var text := Spell(ws);
    assert text == FAULT_MARK + text[|FAULT_MARK|..];
    assert text[1..] == FAULT_MARK[1..] + text[|FAULT_MARK|..];
    var off := [ws[0][1..]] + ws[1..];
    if |ws| > 1 {
      assert off[1..] == ws[1..];
      assert text == ws[0] + " " + Spell(ws[1..]);
      assert text[1..] == ws[0][1..] + " " + Spell(ws[1..]);
    } else {
      assert off == [ws[0][1..]];
    }
  }

  // With no mark at the front of the retirement or the successor, there is no code rule to read.
  lemma {:induction false} RetiredNoMark(obligation: string, retirement: string, successor: string, share: Share)
    requires Word(obligation) && Word(retirement) && Word(successor)
    requires !HasPrefix(retirement, FAULT_MARK) && !HasPrefix(successor, FAULT_MARK)
    ensures CodeFaultKey(RetiredReason(obligation, retirement, successor, share)) == None
  {
    var ws := RetiredWords(obligation, retirement, successor, share);
    RetiredIsSpelled(obligation, retirement, successor, share);
    CodeRuleWords();
    forall k | 1 <= k < |ws|
      ensures !HasPrefix(Spell(ws[k..]), FAULT_MARK)
    {
      RetiredStartsWith(obligation, retirement, successor, share, k);
    }
    CutNowhereInWords(ws, FAULT_MARK);
    NoFaultKey(RetiredReason(obligation, retirement, successor, share));
  }

  // With the first mark at word k, the key is read from that word on.
  lemma {:induction false} KeyFromWord(ws: seq<string>, k: nat, rest: seq<string>)
    requires AllWords(ws) && 1 <= k < |ws| && ws[k] != "" && rest == [ws[k][1..]] + ws[k + 1..]
    requires forall j | 1 <= j < k :: !HasPrefix(Spell(ws[j..]), FAULT_MARK)
    requires HasPrefix(ws[k], FAULT_MARK)
    ensures AllWords(rest) && CodeFaultKey(Spell(ws)) == ReadKey(Spell(rest))
  {
    CodeRuleWords();
    MarkThenRest(ws[k..]);
    CutAtWord(ws, k, FAULT_MARK);
    FaultKeyAfterMark(Spell(ws));
    assert [ws[k..][0][1..]] + ws[k..][1..] == rest;
  }

  // After the successor there is no comma before a colon.
  lemma {:induction false} NoKeyAtEnd(successor: string, share: Share)
    requires Word(successor)
    ensures ReadKey(Spell([successor, "is", "not", ShareText(share)])) == None
  {
    var rest := [successor, "is", "not", ShareText(share)];
    EndIsSpelled(successor, share);
    FaultPieces();
    forall j | 1 <= j < 3
      ensures !HasSuffix(rest[j], "):")
    {
      assert rest[j][|rest[j]| - 1] != ':';
    }
    if HasSuffix(successor, "):") {
      CutAtEnd(rest, 0, "):");
      var inner := successor[..|successor| - 2];
      assert rest[..0] + [inner] == [inner];
      NoSpaceNoCut(inner, ",");
    } else {
      NoEnd(rest, "):");
    }
  }

  // A mark at the front of the successor alone.
  lemma {:induction false} RetiredSuccessorMark(obligation: string, retirement: string, successor: string, share: Share)
    requires Word(obligation) && Word(retirement) && Word(successor)
    requires !HasPrefix(retirement, FAULT_MARK) && HasPrefix(successor, FAULT_MARK)
    ensures CodeFaultKey(RetiredReason(obligation, retirement, successor, share)) == None
  {
    var ws := RetiredWords(obligation, retirement, successor, share);
    RetiredIsSpelled(obligation, retirement, successor, share);
    forall k | 1 <= k < 8
      ensures !HasPrefix(Spell(ws[k..]), FAULT_MARK)
    {
      RetiredStartsWith(obligation, retirement, successor, share, k);
    }
    var rest := [successor[1..], "is", "not", ShareText(share)];
    assert ws[8] == successor;
    assert [ws[8][1..]] + ws[9..] == rest;
    KeyFromWord(ws, 8, rest);
    NoKeyAtEnd(successor[1..], share);
  }

  // From the retirement on, a key is read exactly when the successor closes the parenthesis.
  lemma {:induction false} KeyFromRetirement(retirement: string, successor: string, share: Share)
    requires Word(retirement) && Word(successor)
    ensures ReadKey(Spell(MiddleWords(retirement, successor, share))).Some? <==> HasSuffix(successor, "):")
  {
    var rest := MiddleWords(retirement, successor, share);
    MiddleIsSpelled(retirement, successor, share);
    forall j | 0 <= j < 7
      ensures HasSuffix(rest[j], "):") <==> j == 4 && HasSuffix(successor, "):")
    {
      MiddleEndsWith(retirement, successor, share, j);
    }
    assert rest[0] == retirement + "," && rest[4] == successor;
    KeyWithOneEnd(rest, retirement, successor);
  }

  lemma {:induction false} KeyWithOneEnd(rest: seq<string>, first: string, fifth: string)
    requires |rest| == 8 && AllWords(rest) && Word(first)
    requires rest[0] == first + "," && rest[4] == fifth
    requires forall j | 0 <= j < 7 :: HasSuffix(rest[j], "):") <==> j == 4 && HasSuffix(fifth, "):")
    ensures ReadKey(Spell(rest)).Some? <==> HasSuffix(fifth, "):")
  {
    ColonPiece();
    if HasSuffix(fifth, "):") {
      CutAtEnd(rest, 4, "):");
      CommaKey(first, rest[..4] + [fifth[..|fifth| - 2]]);
    } else {
      NoEnd(rest, "):");
    }
  }

  lemma {:induction false} ColonPiece()
    ensures "): " == "):" + " " && Word("):")
  {
  }

  lemma {:induction false} MiddleEndsWith(retirement: string, successor: string, share: Share, j: nat)
    requires j < 7
    ensures HasSuffix(MiddleWords(retirement, successor, share)[j], "):") <==> j == 4 && HasSuffix(successor, "):")
  {
    var w := MiddleWords(retirement, successor, share)[j];
    if j != 4 {
      assert w[|w| - 1] != ':';
      assert |w| >= 2 ==> w[|w| - 2..][1] == w[|w| - 1];
    }
  }

  lemma {:induction false} CommaKey(retirement: string, closed: seq<string>)
    requires Word(retirement) && AllWords(closed) && |closed| > 2 && closed[0] == retirement + ","
    ensures var parts := Cut(Spell(closed), ", "); parts.found && parts.before == retirement && parts.after != ""
  {
    FaultPieces();
    assert HasSuffix(closed[0], ",") && closed[0][..|closed[0]| - 1] == retirement;
    CutAtEnd(closed, 0, ",");
    assert closed[..0] + [retirement] == [retirement];
    assert Spell(closed[1..]) == closed[1..][0] + " " + Spell(closed[1..][1..]);
  }

  // A mark at the front of the retirement.
  lemma {:induction false} RetiredRetirementMark(obligation: string, retirement: string, successor: string,
          share: Share)
    requires Word(obligation) && Word(retirement) && Word(successor)
    requires HasPrefix(retirement, FAULT_MARK)
    ensures CodeFaultKey(RetiredReason(obligation, retirement, successor, share)).Some? <==> HasSuffix(successor, "):")
  {
    var ws := RetiredWords(obligation, retirement, successor, share);
    RetiredIsSpelled(obligation, retirement, successor, share);
    forall k | 1 <= k < 4
      ensures !HasPrefix(Spell(ws[k..]), FAULT_MARK)
    {
      RetiredStartsWith(obligation, retirement, successor, share, k);
    }
    var rest := MiddleWords(retirement[1..], successor, share);
    CommaAfterMark(retirement);
    assert ws[4] == retirement + ",";
    assert (retirement + ",")[1..] == retirement[1..] + ",";
    assert [ws[4][1..]] + ws[5..] == rest;
    KeyFromWord(ws, 4, rest);
    KeyFromRetirement(retirement[1..], successor, share);
  }

  lemma {:induction false} ShareEndIsRead(front: string, share: Share)
    ensures ShareAtEnd(front + IS_NOT + ShareText(share)) == Some(share)
  {
    var text := front + IS_NOT + ShareText(share);
    assert text == front + (IS_NOT + ShareText(share));
    assert HasSuffix(text, IS_NOT + ShareText(share));
    if share != Designed { OtherShareEnd(text, share, Designed); }
    if share == Proved { OtherShareEnd(text, share, Built); }
  }

  lemma {:induction false} OtherShareEnd(text: string, share: Share, other: Share)
    requires share != other && HasSuffix(text, IS_NOT + ShareText(share))
    ensures !HasSuffix(text, IS_NOT + ShareText(other))
  {
    var a, b := IS_NOT + ShareText(share), IS_NOT + ShareText(other);
    assert |text| >= |a| && text[|text| - |a|..] == a;
    assert a[|a| - 3] == text[|text| - 3] && a[|a| - 1] == text[|text| - 1];
    assert a[|a| - 3] != b[|b| - 3] || a[|a| - 1] != b[|b| - 1];
    assert |text| >= |b| ==> text[|text| - |b|..][|b| - 3] == text[|text| - 3];
    assert |text| >= |b| ==> text[|text| - |b|..][|b| - 1] == text[|text| - 1];
  }

  lemma {:induction false} NoFell(ws: seq<string>)
    requires ws != [] && AllWords(ws)
    requires forall k | 1 <= k < |ws| - 1 :: !(ws[k] == "fell" && ws[k + 1] == "from")
    ensures !Cut(Spell(ws), FELL_FROM).found
  {
    FellFromWords();
    NoPair(ws, "fell", "from", "");
  }

  lemma {:induction false} RetiredNotFell(obligation: string, retirement: string, successor: string, share: Share)
    requires Word(obligation) && Word(retirement) && Word(successor)
    ensures !Cut(RetiredReason(obligation, retirement, successor, share), FELL_FROM).found
  {
    var ws := RetiredWords(obligation, retirement, successor, share);
    RetiredIsSpelled(obligation, retirement, successor, share);
    assert ws[1] == "is" && ws[2] == "retired" && ws[3] == "by" && ws[4] == retirement + "," && ws[5] == "but";
    assert ws[6] == "its" && ws[7] == "successor" && ws[8] == successor && ws[9] == "is" && ws[10] == "not";
    forall k | 1 <= k < |ws| - 1
      ensures !(ws[k] == "fell" && ws[k + 1] == "from")
    {
      assert "fell"[3] == 'l';
      assert k == 4 ==> ws[k][|ws[k]| - 1] == ',';
    }
    NoFell(ws);
  }

  // A retired obligation is read as that obligation and that share, exactly when no fault's words are in its IDs.
  lemma {:induction false} ReadRetired(obligation: string, retirement: string, successor: string, share: Share)
    requires Word(obligation) && Word(retirement) && Word(successor)
    ensures
      (ReasonOrder(RetiredReason(obligation, retirement, successor, share)) ==
       Place(Section.Obligations, ShareKey(obligation, share)))
      <==>
      !(HasPrefix(retirement, FAULT_MARK) && HasSuffix(successor, "):"))
  {
    var reason := RetiredReason(obligation, retirement, successor, share);
    var ws := RetiredWords(obligation, retirement, successor, share);
    RetiredIsSpelled(obligation, retirement, successor, share);
    if HasPrefix(retirement, FAULT_MARK) {
      RetiredRetirementMark(obligation, retirement, successor, share);
    } else if HasPrefix(successor, FAULT_MARK) {
      RetiredSuccessorMark(obligation, retirement, successor, share);
    } else {
      RetiredNoMark(obligation, retirement, successor, share);
    }
    ShareEndsOtherwise(obligation + RETIRED_BY + retirement + BUT_ITS_SUCCESSOR + successor + IS_NOT, share);
    assert ws[1] == "is";
    NotAFixedReason(ws);
    RetiredNotFell(obligation, retirement, successor, share);
    RetiredCut(obligation, retirement, successor, share);
  }

  lemma {:induction false} RetiredCut(obligation: string, retirement: string, successor: string, share: Share)
    requires Word(obligation)
    ensures
      var cut := Cut(RetiredReason(obligation, retirement, successor, share), RETIRED_BY);
      cut.found && cut.before == obligation && ShareAtEnd(cut.after) == Some(share)
  {
    RetiredByWords();
    RetiredText(obligation, retirement, successor, share);
    var rest := retirement + BUT_ITS_SUCCESSOR + successor + IS_NOT + ShareText(share);
    CutRightAfterWord(obligation, "is" + " " + ("retired" + " " + ("by" + " " + "")), rest);
    ShareEndIsRead(retirement + BUT_ITS_SUCCESSOR + successor, share);
  }

  // ---- The obligation a release lacks a share of ----

  lemma {:induction false} NoRetired(ws: seq<string>)
    requires ws != [] && AllWords(ws)
    requires forall k | 1 <= k < |ws| - 1 :: !(ws[k] == "is" && ws[k + 1] == "retired")
    ensures !Cut(Spell(ws), RETIRED_BY).found
  {
    RetiredByWords();
    NoPair(ws, "is", "retired", "by" + " " + "");
  }

  lemma {:induction false} ReadNot(obligation: string, share: Share)
    requires Word(obligation)
    ensures ReasonOrder(NotReason(obligation, share)) == Place(Section.Obligations, ShareKey(obligation, share))
  {
    var reason := NotReason(obligation, share);
    var ws := EndWords(obligation, share);
    EndIsSpelled(obligation, share);
    ShareTextIsAWord(share);
    ShareEndsOtherwise(obligation + IS_NOT, share);
    NotAFixedReason(ws);
    forall k | 1 <= k < |ws|
      ensures !HasPrefix(ws[k], FAULT_MARK)
    {
      OtherFirst(ws[k], FAULT_MARK);
    }
    NoFaultMark(ws, FAULT_MARK);
    NoFaultKey(reason);
    NoFell(ws);
    NoRetired(ws);
    ShareEndIsRead(obligation, share);
    assert CutSuffix(reason, IS_NOT + ShareText(share)).before == obligation;
  }

  // ---- The reasons that start with fixed words, and the workflow files ----

  // A reason of the proof run's section, or for want of any obligation, is read so unless it ends as a workflow's.
  lemma {:induction false} ReadFixed(rest: string)
    ensures ReasonOrder(NO_VERIFIED_PROOF_RUN + rest) == Place(ProofRuns, "") <==>
      !HasSuffix(NO_VERIFIED_PROOF_RUN + rest, DIFFERS_FROM_BASE)
    ensures ReasonOrder(NO_OBLIGATION + rest) == Place(Section.Obligations, "") <==>
      !HasSuffix(NO_OBLIGATION + rest, DIFFERS_FROM_BASE)
  {
    assert (NO_VERIFIED_PROOF_RUN + rest)[3] == 'v' && (NO_OBLIGATION + rest)[3] == 'o';
    assert NO_OBLIGATION[3] == 'o';
    var text := NO_VERIFIED_PROOF_RUN + rest;
    assert |text| >= |NO_OBLIGATION| ==> text[..|NO_OBLIGATION|][3] == text[3];
    assert HasPrefix(NO_VERIFIED_PROOF_RUN + rest, NO_VERIFIED_PROOF_RUN);
    assert HasPrefix(NO_OBLIGATION + rest, NO_OBLIGATION);
  }

  lemma {:induction false} ReadWorkflow(file: string)
    ensures ReasonOrder(WorkflowReason(file)) == Place(Workflows, file)
  {
    assert HasSuffix(WorkflowReason(file), DIFFERS_FROM_BASE);
  }

  // ---- The obligation that the change does not have ----

  // The shares it had, as the words of the reason.
  function ShareWords(had: seq<Share>): seq<string> {
    if |had| == 0 then [""]
    else if |had| == 1 then [ShareText(had[0])]
    else [ShareText(had[0]) + ","] + ShareWords(had[1..])
  }

  lemma {:induction false} SharesAreSpelled(had: seq<Share>)
    ensures ShareWords(had) != [] && AllWords(ShareWords(had))
    ensures Spell(ShareWords(had)) == Join(ShareTexts(had), ", ")
    decreases |had|
  {
    if |had| > 0 { ShareTextIsAWord(had[0]); }
    if |had| > 1 {
      SharesAreSpelled(had[1..]);
      SpellOfMore(ShareText(had[0]) + ",", ShareWords(had[1..]));
      SharesAreJoined(had);
      CommaAndSpace(ShareText(had[0]), Join(ShareTexts(had[1..]), ", "));
    }
  }

  lemma {:induction false} SharesAreJoined(had: seq<Share>)
    requires |had| > 1
    ensures Join(ShareTexts(had), ", ") == ShareText(had[0]) + ", " + Join(ShareTexts(had[1..]), ", ")
  {
    assert ShareTexts(had)[1..] == ShareTexts(had[1..]);
  }

  lemma {:induction false} CommaAndSpace(a: string, b: string)
    ensures a + "," + " " + b == a + ", " + b
  {
  }

  lemma {:induction false} SharesStartOtherwise(had: seq<Share>)
    ensures forall k | 0 <= k < |ShareWords(had)| :: ShareWords(had)[k] == "" || ShareWords(had)[k][0] in "dbp"
    decreases |had|
  {
    if |had| > 1 { SharesStartOtherwise(had[1..]); }
  }

  lemma {:induction false} AbsentAtWords()
    ensures ABSENT_AT_CHANGE == " " + ("is" + " " + ("absent" + " " + "at the change (was "))
    ensures "at the change (was " == "at" + " " + ("the" + " " + ("change" + " " + ("(was" + " " + "")))
    ensures Word("is") && Word("absent") && Word("at") && Word("the") && Word("change") && Word("(was") && Word("base)")
    ensures " at the base)" == " " + ("at" + " " + ("the" + " " + "base)"))
  {
    WasWords();
    BaseWords();
  }

  lemma {:induction false} WasWords()
    ensures "at the change (was " == "at" + " " + ("the" + " " + ("change" + " " + ("(was" + " " + "")))
    ensures Word("change") && Word("(was")
  {
  }

  lemma {:induction false} BaseWords()
    ensures " at the base)" == " " + ("at" + " " + ("the" + " " + "base)"))
    ensures Word("at") && Word("the") && Word("base)")
  {
  }

  function AbsentWords(obligation: string, had: seq<Share>): seq<string> {
    [obligation, "is", "absent", "at"] + (["the", "change", "(was"] + (ShareWords(had) + ["at", "the", "base)"]))
  }

  lemma {:induction false} SpellAppended(front: seq<string>, back: seq<string>)
    requires front != [] && back != []
    ensures Spell(front + back) == Spell(front) + " " + Spell(back)
    decreases |front|
  {
    if |front| == 1 {
      assert front + back == [front[0]] + back;
      SpellOfMore(front[0], back);
    } else {
      assert front + back == [front[0]] + (front[1..] + back);
      SpellOfMore(front[0], front[1..] + back);
      SpellAppended(front[1..], back);
    }
  }

  // The words from the base's shares on.
  lemma {:induction false} SharesAtBase(had: seq<Share>)
    ensures AllWords(ShareWords(had) + ["at", "the", "base)"])
    ensures Spell(ShareWords(had) + ["at", "the", "base)"]) == Join(ShareTexts(had), ", ") + " " + ("at" + " " + ("the" + " " + "base)"))
  {
    AbsentAtWords();
    SharesAreSpelled(had);
    SpellOf3("at", "the", "base)");
    SpellAppended(ShareWords(had), ["at", "the", "base)"]);
  }

  lemma {:induction false} SpellThreeBefore(a: string, b: string, c: string, more: seq<string>)
    requires more != []
    ensures Spell([a, b, c] + more) == a + " " + (b + " " + (c + " " + Spell(more)))
  {
    SpellOfMore(c, more);
    SpellOfMore(b, [c] + more);
    SpellOfMore(a, [b] + ([c] + more));
    assert [a, b, c] + more == [a] + ([b] + ([c] + more));
  }

  lemma {:induction false} AbsentIsSpelled(obligation: string, had: seq<Share>)
    requires Word(obligation)
    ensures AllWords(AbsentWords(obligation, had))
    ensures AbsentReason(obligation, had) == Spell(AbsentWords(obligation, had))
  {
    AbsentAtWords();
    SharesAtBase(had);
    var tail := ShareWords(had) + ["at", "the", "base)"];
    SpellThreeBefore("the", "change", "(was", tail);
    SpellFourMore(obligation, "is", "absent", "at", ["the", "change", "(was"] + tail);
    AbsentText(obligation, Join(ShareTexts(had), ", "));
  }

  lemma {:induction false} AbsentText(obligation: string, shares: string)
    ensures obligation + ABSENT_AT_CHANGE + shares + " at the base)" ==
      obligation + (" " + ("is" + " " + ("absent" + " " + ("at" + " " + "")))) +
      ("the" + " " + ("change" + " " + ("(was" + " " + (shares + " " + ("at" + " " + ("the" + " " + "base)"))))))
  {
    AbsentAtWords();
  }

  lemma {:induction false} AbsentEnds(obligation: string, had: seq<Share>)
    ensures var reason := AbsentReason(obligation, had); |reason| > 1 && reason[|reason| - 2] == 'e' && reason[|reason| - 1] == ')'
  {
    var end := " at the base)";
    assert end[|end| - 2] == 'e' && end[|end| - 1] == ')';
  }

  lemma {:induction false} AbsentIsCut(obligation: string, had: seq<Share>)
    requires Word(obligation)
    ensures Cut(AbsentReason(obligation, had), ABSENT_AT_CHANGE) == Pieces(obligation, Join(ShareTexts(had), ", ") + " at the base)", true)
  {
    AbsentAtWords();
    var rest := Join(ShareTexts(had), ", ") + " at the base)";
    CutAtMark(obligation, ABSENT_AT_CHANGE, "is" + " " + ("absent" + " " + "at the change (was "), rest);
    JoinAfter(obligation, ABSENT_AT_CHANGE, Join(ShareTexts(had), ", "), " at the base)");
  }

  lemma {:induction false} JoinAfter(a: string, b: string, c: string, d: string)
    ensures a + b + c + d == a + b + (c + d)
  {
  }

  lemma {:induction false} AbsentHasNoMark(obligation: string, had: seq<Share>)
    requires Word(obligation)
    ensures var reason := AbsentReason(obligation, had);
      && !Cut(reason, FELL_FROM).found && !Cut(reason, RETIRED_BY).found && CodeFaultKey(reason) == None
      && !HasPrefix(reason, NO_VERIFIED_PROOF_RUN) && !HasPrefix(reason, NO_OBLIGATION)
  {
    var reason, ws := AbsentReason(obligation, had), AbsentWords(obligation, had);
    AbsentIsSpelled(obligation, had);
    NotAFixedReason(ws);
    AbsentHasNoOther(obligation, had);
    NoFaultMark(ws, FAULT_MARK);
    NoFaultKey(reason);
    NoFell(ws);
    NoRetired(ws);
  }

  // An absent obligation is read as itself, before every reason for one of its shares.
  lemma {:induction false} ReadAbsent(obligation: string, had: seq<Share>)
    requires Word(obligation)
    ensures ReasonOrder(AbsentReason(obligation, had)) == Place(Section.Obligations, obligation)
  {
    AbsentEnds(obligation, had);
    EndsOtherwise(AbsentReason(obligation, had));
    AbsentHasNoMark(obligation, had);
    NoShareAtEnd(AbsentReason(obligation, had));
    AbsentIsCut(obligation, had);
  }

  // The last character decides that no share is named at the end.
  lemma {:induction false} NoShareAtEnd(text: string)
    requires text != "" && text[|text| - 1] != 'd' && text[|text| - 1] != 't'
    ensures ShareAtEnd(text) == None
  {
    forall share
      ensures !HasSuffix(text, IS_NOT + ShareText(share))
    {
      var b := IS_NOT + ShareText(share);
      assert b[|b| - 1] == 'd' || b[|b| - 1] == 't';
      assert |text| >= |b| ==> text[|text| - |b|..][|b| - 1] == text[|text| - 1];
    }
  }

  lemma {:induction false} AbsentHasNoOther(obligation: string, had: seq<Share>)
    ensures
      var ws := AbsentWords(obligation, had);
      forall k | 1 <= k < |ws| :: !HasPrefix(ws[k], FAULT_MARK) && ws[k] != "fell" && ws[k] != "retired"
  {
    var ws := AbsentWords(obligation, had);
    SharesStartOtherwise(had);
    var n := |ShareWords(had)|;
    assert FAULT_MARK[..2] == "(S" && "(was"[1] == 'w';
    forall k | 1 <= k < |ws|
      ensures !HasPrefix(ws[k], FAULT_MARK) && ws[k] != "fell" && ws[k] != "retired"
    {
      if 7 <= k < 7 + n {
        assert ws[k] == ShareWords(had)[k - 7];
        OtherFirst(ws[k], FAULT_MARK);
      } else if k != 6 {
        OtherFirst(ws[k], FAULT_MARK);
      }
    }
  }

  // ---- The test records that did not pass ----

  lemma {:induction false} NoAbsent(ws: seq<string>)
    requires ws != [] && AllWords(ws)
    requires forall k | 1 <= k < |ws| - 1 :: !(ws[k] == "is" && ws[k + 1] == "absent")
    ensures !Cut(Spell(ws), ABSENT_AT_CHANGE).found
  {
    AbsentAtWords();
    NoPair(ws, "is", "absent", "at the change (was ");
  }

  // A text of words with none of the gate's other words belongs to the record its first word names.
  lemma {:induction false} ReadOther(ws: seq<string>)
    requires |ws| > 1 && AllWords(ws)
    requires ws[1] != "obligation" && ws[1] != "verified"
    requires forall k | 1 <= k < |ws| :: !HasPrefix(ws[k], FAULT_MARK) && ws[k] != "is" && ws[k] != "fell"
    requires !HasSuffix(Spell(ws), DIFFERS_FROM_BASE) && ShareAtEnd(Spell(ws)) == None
    ensures ReasonOrder(Spell(ws)) == Place(ProofRuns, ws[0])
  {
    NotAFixedReason(ws);
    NoFaultMark(ws, FAULT_MARK);
    NoFaultKey(Spell(ws));
    NoFell(ws);
    NoRetired(ws);
    NoAbsent(ws);
    PartWordFirst(ws[1..], "");
    CutBeforeWord(ws, "");
    assert " " + "" == " ";
  }

  function NoOutcomeWords(id: string): seq<string> {
    [id, "has", "no", "outcome"] + ["in", "the", "proof", "run"]
  }

  lemma {:induction false} NoOutcomeIsSpelled(id: string)
    requires Word(id)
    ensures AllWords(NoOutcomeWords(id)) && Spell(NoOutcomeWords(id)) == NoOutcomeReason(id)
  {
    NoOutcomeAreWords();
    NoOutcomeText(id);
    SpellOf4("in", "the", "proof", "run");
    SpellFourMore(id, "has", "no", "outcome", ["in", "the", "proof", "run"]);
  }

  lemma {:induction false} NoOutcomeAreWords()
    ensures Word("has") && Word("no") && Word("outcome") && Word("in") && Word("the") && Word("proof") && Word("run")
  {
  }

  lemma {:induction false} NoOutcomeText(id: string)
    ensures NoOutcomeReason(id) ==
      id + (" " + ("has" + " " + ("no" + " " + ("outcome" + " " + "")))) + ("in" + " " + ("the" + " " + ("proof" + " " + "run")))
  {
  }

  lemma {:induction false} NoOutcomeHasNoOther(id: string, k: nat)
    requires 1 <= k < |NoOutcomeWords(id)|
    ensures var w := NoOutcomeWords(id)[k]; !HasPrefix(w, FAULT_MARK) && w != "is" && w != "fell"
  {
    var w := NoOutcomeWords(id)[k];
    assert w[0] in "hnoitpr" && (|w| == 2 ==> w[1] != 's');
    OtherFirst(w, FAULT_MARK);
  }

  lemma {:induction false} ReadNoOutcome(id: string)
    requires Word(id)
    ensures ReasonOrder(NoOutcomeReason(id)) == Place(ProofRuns, id)
  {
    var ws := NoOutcomeWords(id);
    NoOutcomeIsSpelled(id);
    forall k | 1 <= k < |ws|
      ensures !HasPrefix(ws[k], FAULT_MARK) && ws[k] != "is" && ws[k] != "fell"
    {
      NoOutcomeHasNoOther(id, k);
    }
    EndsOtherwise(NoOutcomeReason(id));
    NoShareAtEnd(NoOutcomeReason(id));
    assert ws[1] == "has";
    ReadOther(ws);
  }

  lemma {:induction false} DidNotRunIsSpelled(id: string)
    requires Word(id)
    ensures DidNotRunReason(id) == Spell([id, "failed:", "did", "not"] + ["run"])
    ensures AllWords([id, "failed:", "did", "not"] + ["run"])
  {
    SpellFourMore(id, "failed:", "did", "not", ["run"]);
    assert Word("failed:") && Word("did") && Word("not") && Word("run");
  }

  lemma {:induction false} DidNotRunEnds(text: string)
    requires |text| > 1 && text[|text| - 1] == 'n' && text[|text| - 2] == 'u'
    ensures !HasSuffix(text, DIFFERS_FROM_BASE) && ShareAtEnd(text) == None
  {
    EndsOtherwise(text);
    NoShareAtEnd(text);
  }

  lemma {:induction false} DidNotRunHasNoOther(id: string, k: nat)
    requires 1 <= k < 5
    ensures !HasPrefix(([id, "failed:", "did", "not"] + ["run"])[k], FAULT_MARK)
  {
    OtherFirst(([id, "failed:", "did", "not"] + ["run"])[k], FAULT_MARK);
  }

  lemma {:induction false} ReadDidNotRun(id: string)
    requires Word(id)
    ensures ReasonOrder(DidNotRunReason(id)) == Place(ProofRuns, id)
  {
    var ws := [id, "failed:", "did", "not"] + ["run"];
    DidNotRunIsSpelled(id);
    var text := DidNotRunReason(id);
    assert text[|text| - 1] == 'n' && text[|text| - 2] == 'u';
    DidNotRunEnds(text);
    forall k | 1 <= k < |ws|
      ensures !HasPrefix(ws[k], FAULT_MARK)
    {
      DidNotRunHasNoOther(id, k);
    }
    ReadOther(ws);
  }

  lemma {:induction false} ReadNotPassed(id: string, result: string)
    requires Word(id) && result in {"failed", "skipped", "passed"}
    ensures ReasonOrder(ResultReason(id, result)) == Place(ProofRuns, id)
  {
    var ws := [id, result];
    var text := ResultReason(id, result);
    SpellOf2(id, result);
    assert Word("failed") && Word("skipped") && Word("passed");
    assert text[|text| - 2] == 'e' && text[|text| - 1] == 'd' && text[|text| - 3] in "lps";
    assert result[0] in "fsp" && result[1] in "ak";
    OtherFirst(result, FAULT_MARK);
    EndsOtherwise(text);
    forall share
      ensures !HasSuffix(text, IS_NOT + ShareText(share))
    {
      var b := IS_NOT + ShareText(share);
      assert b[|b| - 1] == 't' || b[|b| - 3] == 'n' || b[|b| - 3] == 'v';
      assert |text| >= |b| ==> text[|text| - |b|..][|b| - 1] == text[|text| - 1];
      assert |text| >= |b| ==> text[|text| - |b|..][|b| - 3] == text[|text| - 3];
    }
    ReadOther(ws);
  }

  // ---- The code-standard faults ----

  const RULE_MARK := "ST-STD-CODE-R"

  // The fault as its text shows it: a key ends where the closing words first stand.
  function Shown(fault: CodeFault): CodeFault {
    var cut := Cut(fault.key, CLOSING);
    if cut.found then fault.(key := cut.before, why := cut.after + CLOSING + fault.why) else fault
  }

  const CLOSING := "): "

  // A fault whose path does not itself hold the opening words is read back with its rule and its key exactly when it
  // has a key, the key does not hold the closing words, and the text neither ends as a workflow's does nor starts as
  // one of the two fixed reasons.
  lemma {:induction false} ReadFault(fault: CodeFault)
    requires Word(fault.rule) && HasPrefix(fault.rule, RULE_MARK) && !Cut(fault.path, CODE_RULE).found
    ensures
      var reason := CodeFaultReason(fault);
      (ReasonOrder(reason) == Place(CodeFaults, fault.rule + "\0" + fault.key))
      <==>
      && fault.key != "" && !Cut(fault.key, CLOSING).found
      && !HasSuffix(reason, DIFFERS_FROM_BASE) && !HasPrefix(reason, NO_OBLIGATION) && !HasPrefix(reason, NO_VERIFIED_PROOF_RUN)
  {
    ReadShown(fault);
    var shown := Shown(fault);
    if Cut(fault.key, CLOSING).found {
      assert |shown.key| < |fault.key|;
      assert |fault.rule + "\0" + shown.key| < |fault.rule + "\0" + fault.key|;
    }
  }

  // Where no path of the tree has a space, its text starts as no fixed reason does.
  lemma {:induction false} ReadPlainFault(fault: CodeFault)
    requires Word(fault.path) && Word(fault.rule) && HasPrefix(fault.rule, RULE_MARK)
    requires fault.key != "" && !Cut(fault.key, CLOSING).found
    ensures
      (ReasonOrder(CodeFaultReason(fault)) == Place(CodeFaults, fault.rule + "\0" + fault.key))
      <==>
      !HasSuffix(CodeFaultReason(fault), DIFFERS_FROM_BASE)
  {
    NoCodeRuleInWord(fault.path);
    ReadFault(fault);
    FaultNotFixed(fault);
  }

  lemma {:induction false} NoCodeRuleInWord(w: string)
    requires Word(w)
    ensures !Cut(w, CODE_RULE).found
  {
    forall i | 0 <= i <= |w|
      ensures !OccursAt(w, CODE_RULE, i)
    {
      assert CODE_RULE[0] == ' ';
    }
    CutNowhere(w, CODE_RULE);
  }

  // What is read is the rule and the key as shown.
  lemma {:induction false} ReadShown(fault: CodeFault)
    requires Word(fault.rule) && HasPrefix(fault.rule, RULE_MARK) && !Cut(fault.path, CODE_RULE).found
    ensures CodeFaultKey(CodeFaultReason(fault)) ==
      if Shown(fault).key == "" then None else Some(FaultKey(fault.rule, Shown(fault).key))
  {
    var shown := Shown(fault);
    ShownReadsAlike(fault);
    ShownHasNoClosing(fault);
    FaultText(shown);
    KeyEndsFirst(shown);
    RuleEndsFirst(fault.rule, shown.key);
  }

  lemma {:induction false} ShownReadsAlike(fault: CodeFault)
    ensures CodeFaultReason(Shown(fault)) == CodeFaultReason(fault)
  {
    var cut := Cut(fault.key, CLOSING);
    if cut.found {
      CutJoins(fault.key, CLOSING);
      var start := fault.path + " (" + fault.rule + ", ";
      Rejoin(start, cut.before, CLOSING, cut.after, fault.why);
    }
  }

  lemma {:induction false} Rejoin(a: string, b: string, c: string, d: string, e: string)
    ensures a + (b + c + d) + c + e == a + b + c + (d + c + e)
  {
  }

  lemma {:induction false} CutJoins(s: string, separator: string)
    requires Cut(s, separator).found
    ensures s == Cut(s, separator).before + separator + Cut(s, separator).after
  {
    var at := Index(s, separator);
    assert s == s[..at] + s[at..at + |separator|] + s[at + |separator|..];
  }

  lemma {:induction false} ShownHasNoClosing(fault: CodeFault)
    ensures !Cut(Shown(fault).key, CLOSING).found
  {
    var at := Index(fault.key, CLOSING);
    if Cut(fault.key, CLOSING).found {
      var key := fault.key[..at];
      forall i | 0 <= i <= |key|
        ensures !OccursAt(key, CLOSING, i)
      {
        if i + 3 <= |key| {
          assert key[i..i + 3] == fault.key[i..i + 3];
          assert !OccursAt(fault.key, CLOSING, i);
        }
      }
      CutNowhere(key, CLOSING);
    }
  }

  lemma {:induction false} FaultText(fault: CodeFault)
    requires !Cut(fault.path, CODE_RULE).found && HasPrefix(fault.rule, RULE_MARK)
    ensures Index(CodeFaultReason(fault), CODE_RULE) == |fault.path|
    ensures CodeFaultReason(fault)[|fault.path| + 2..] == fault.rule + ", " + fault.key + CLOSING + fault.why
  {
    var rest := fault.rule[|RULE_MARK|..];
    assert fault.rule == RULE_MARK + rest;
    OpeningWords();
    Opened(fault.path, " (", RULE_MARK, rest, ", ", fault.key, CLOSING, fault.why);
    OpensFirst(fault.path, rest + ", " + fault.key + CLOSING + fault.why);
  }

  lemma {:induction false} OpeningWords()
    ensures CODE_RULE == " (" + RULE_MARK
  {
  }

  lemma {:induction false} Opened(path: string, open: string, mark: string, rest: string, sep: string, key: string,
          close: string, why: string)
    ensures
      var text := path + open + (mark + rest) + sep + key + close + why;
      && text == path + (open + mark) + (rest + sep + key + close + why)
      && text[|path| + |open|..] == mark + rest + sep + key + close + why
  {
    var text := path + open + (mark + rest) + sep + key + close + why;
    assert text == (path + open) + (mark + rest + sep + key + close + why);
  }

  // The opening words hold one space, at their start, so none of theirs can begin within a path that does not hold them.
  lemma {:induction false} OpensFirst(path: string, more: string)
    requires !Cut(path, CODE_RULE).found
    ensures Index(path + CODE_RULE + more, CODE_RULE) == |path|
  {
    var s := path + CODE_RULE + more;
    assert s[|path|..|path| + |CODE_RULE|] == CODE_RULE;
    forall i | 0 <= i < |path|
      ensures !OccursAt(s, CODE_RULE, i)
    {
      if i + |CODE_RULE| <= |path| {
        assert s[i..i + |CODE_RULE|] == path[i..i + |CODE_RULE|];
        assert !OccursAt(path, CODE_RULE, i);
      } else if i + |CODE_RULE| <= |s| {
        OneSpaceInCodeRule(|path| - i);
        assert s[i..i + |CODE_RULE|][|path| - i] == s[|path|] == ' ';
      }
    }
    CutAtFirst(s, CODE_RULE, |path|);
  }

  lemma {:induction false} OneSpaceInCodeRule(d: nat)
    requires 0 < d < |CODE_RULE|
    ensures CODE_RULE[d] != ' '
  {
    CodeRuleWords();
    assert CODE_RULE[d] == FAULT_MARK[d - 1];
  }

  lemma {:induction false} FaultNotFixed(fault: CodeFault)
    requires Word(fault.path)
    ensures !HasPrefix(CodeFaultReason(fault), NO_OBLIGATION) && !HasPrefix(CodeFaultReason(fault), NO_VERIFIED_PROOF_RUN)
  {
    var tail := "(" + fault.rule + ", " + fault.key + "): " + fault.why;
    assert CodeFaultReason(fault) == fault.path + " " + tail by {
      assert " (" == " " + "(";
    }
    NoObligationWords();
    NoProofRunWords();
    WholeWord(fault.path, tail, "no", "obligation" + " " + "at ");
    WholeWord(fault.path, tail, "no", "verified" + " " + "proof run at ");
    OtherFirst(tail, "obligation" + " " + "at ");
    OtherFirst(tail, "verified" + " " + "proof run at ");
  }

  lemma {:induction false} RuleEndsFirst(rule: string, key: string)
    requires Word(rule)
    ensures Cut(rule + ", " + key, ", ") == Pieces(rule, key, true)
  {
    var w := rule + ",";
    FaultPieces();
    assert rule + ", " + key == w + " " + key;
    assert w[|w| - 1..] == ",";
    assert w[..|w| - 1] == rule;
    CutBeforeSpace(w, key, ",");
  }

  lemma {:induction false} KeyEndsFirst(fault: CodeFault)
    requires Word(fault.rule) && !Cut(fault.key, CLOSING).found
    ensures
      Cut(fault.rule + ", " + fault.key + CLOSING + fault.why, CLOSING) == Pieces(fault.rule + ", " + fault.key, fault.why, true)
  {
    var inner, s := fault.rule + ", " + fault.key, fault.rule + ", " + fault.key + "): " + fault.why;
    var n, m := |inner|, |fault.rule| + 2;
    assert s[n..n + 3] == "): ";
    assert s[n + 3..] == fault.why && s[..n] == inner;
    forall i | 0 <= i < n
      ensures !OccursAt(s, "): ", i)
    {
      var piece := s[i..i + 3];
      assert piece[2] == s[i + 2] && piece[1] == s[i + 1];
      if i + 2 < |fault.rule| {
        assert s[i + 2] == fault.rule[i + 2];
      } else if i + 2 == |fault.rule| {
        assert s[i + 2] == ',';
      } else if i == m - 3 {
        assert s[i + 2] == ' ' && s[i + 1] == ',';
      } else if i < m {
        assert i == m - 2 ==> s[i] == ',' && piece[0] == ',';
        assert i == m - 1 ==> s[i] == ' ' && piece[0] == ' ';
      } else if i + 3 <= n {
        assert piece == fault.key[i - m..i - m + 3];
        assert !OccursAt(fault.key, "): ", i - m);
      } else {
        assert i == n - 2 ==> s[i + 2] == ')';
        assert i == n - 1 ==> s[i + 2] == ':';
      }
    }
    CutAtFirst(s, "): ", n);
  }

  // ---- The order of the obligations ----

  // Two IDs with no NUL keep their order, whatever each is followed by, even when one is a prefix of the other.
  lemma {:induction false} KeysKeepTheOrder(a: string, x: string, b: string, y: string)
    requires '\0' !in a && '\0' !in b && a != b
    requires x == "" || x[0] == '\0'
    requires y == "" || y[0] == '\0'
    ensures Less(a + x, b + y) <==> Less(a, b)
    decreases |a|
  {
    if a != "" && b != "" {
      if a[0] == b[0] {
        assert a == [a[0]] + a[1..] && b == [b[0]] + b[1..];
        KeysKeepTheOrder(a[1..], x, b[1..], y);
        assert (a + x)[1..] == a[1..] + x && (b + y)[1..] == b[1..] + y;
      }
    } else if a == "" {
      assert a + x == x && (b + y)[0] == b[0] && b[0] != '\0';
    } else {
      assert b + y == y && (a + x)[0] == a[0] && a[0] != '\0';
    }
  }

  // The place of an obligation's reason: absent, or lacking a share.
  function ObligationPlace(obligation: string, share: Option<Share>): Place {
    Place(Section.Obligations, if share.None? then obligation else ShareKey(obligation, share.value))
  }

  function ShareRank(share: Option<Share>): nat {
    match share
    case None => 0
    case Some(Designed) => 1
    case Some(Built) => 2
    case Some(Proved) => 3
  }

  // Obligations come by ID, and one obligation's shares in the order designed, built, proved.
  lemma {:induction false} ObligationsInOrder(r: string, a: string, s: Option<Share>, q: string, b: string,
          t: Option<Share>)
    requires '\0' !in a && '\0' !in b
    requires ReasonOrder(r) == ObligationPlace(a, s) && ReasonOrder(q) == ObligationPlace(b, t)
    ensures a != b ==> (ReasonBefore(r, q) <==> Less(a, b))
    ensures a == b && s != t ==> (ReasonBefore(r, q) <==> ShareRank(s) < ShareRank(t))
  {
    var x: string := if s.None? then "" else ['\0', ShareDigit(s.value)];
    var y: string := if t.None? then "" else ['\0', ShareDigit(t.value)];
    assert ReasonOrder(r).key == a + x && ReasonOrder(q).key == b + y;
    if a != b {
      KeysKeepTheOrder(a, x, b, y);
      LessTotal(a, b);
      KeysDiffer(a, x, b, y);
    } else if s != t {
      LessAfterPrefix(a, x, y);
      DigitsInOrder(s, t, x, y);
      assert |a + x| != |a + y| || (a + x)[|a| + 1] != (a + y)[|a| + 1];
    }
  }

  lemma {:induction false} KeysDiffer(a: string, x: string, b: string, y: string)
    requires '\0' !in a && '\0' !in b && a != b
    requires x == "" || x[0] == '\0'
    requires y == "" || y[0] == '\0'
    ensures a + x != b + y
  {
    KeysKeepTheOrder(a, x, b, y);
    KeysKeepTheOrder(b, y, a, x);
    LessTotal(a, b);
    LessIrreflexive(a + x);
  }

  lemma {:induction false} DigitsInOrder(s: Option<Share>, t: Option<Share>, x: string, y: string)
    requires x == if s.None? then "" else ['\0', ShareDigit(s.value)]
    requires y == if t.None? then "" else ['\0', ShareDigit(t.value)]
    ensures s != t ==> x != y
    ensures Less(x, y) <==> ShareRank(s) < ShareRank(t)
  {
    if s.Some? && t.Some? {
      assert x[1..] == [ShareDigit(s.value)] && y[1..] == [ShareDigit(t.value)];
      assert Less(x[1..], y[1..]) <==> ShareDigit(s.value) < ShareDigit(t.value) by {
        assert !Less(x[1..][1..], y[1..][1..]);
      }
      assert s != t ==> x[1] != y[1];
    }
  }
}
