// internal/assure/code_standard.go: the globs of test files, with ** and {a,b}.
module Glob {
  import opened Text
  import opened Wrappers

  // ---- The matcher ----

  // path.Match of one part of the glob and one part of the path: none when the part of the glob is malformed.
  type Matcher = (string, string) -> Option<bool>

  const DOUBLE_STAR := "**"

  function Open(glob: string): int {
    Index(glob, "{")
  }

  function Close(glob: string): int {
    if Open(glob) < 0 then -1 else IndexFrom(glob, "}", Open(glob))
  }

  // The first brace opens a group when a closing brace follows it; otherwise it is an ordinary character.
  predicate HasGroup(glob: string) {
    0 <= Open(glob) < Close(glob)
  }

  function Group(glob: string): string
    requires HasGroup(glob)
  {
    glob[Open(glob) + 1..Close(glob)]
  }

  function Choose(glob: string, choice: string): (chosen: string)
    requires HasGroup(glob)
    ensures |choice| <= |Group(glob)| ==> |chosen| < |glob|
  {
    glob[..Open(glob)] + choice + glob[Close(glob) + 1..]
  }

  function TrimPrefix(s: string, prefix: string): string {
    if HasPrefix(s, prefix) then s[|prefix|..] else s
  }

  predicate MatchesGlob(m: Matcher, glob: string, name: string)
    decreases |glob|, 1
  {
    if HasGroup(glob) then
      PiecesAreNoLonger(Group(glob), ',');
      AnyChoice(m, glob, Split(Group(glob), ','), name)
    else MatchParts(m, Split(TrimPrefix(glob, "./"), '/'), Split(name, '/'))
  }

  predicate AnyChoice(m: Matcher, glob: string, choices: seq<string>, name: string)
    requires HasGroup(glob) && forall choice | choice in choices :: |choice| <= |Group(glob)|
    decreases |glob|, 0, |choices|
  {
    choices != [] && (MatchesGlob(m, Choose(glob, choices[0]), name) || AnyChoice(m, glob, choices[1..], name))
  }

  lemma {:induction false} PiecesAreNoLonger(s: string, c: char)
    ensures forall piece | piece in Split(s, c) :: |piece| <= |s|
  {
    if s != "" { PiecesAreNoLonger(s[1..], c); }
  }

  predicate MatchParts(m: Matcher, glob: seq<string>, name: seq<string>)
    decreases |glob|, |name| + 1
  {
    if glob == [] then name == []
    else if glob[0] == DOUBLE_STAR then AnySkip(m, glob, name, 0)
    else name != [] && m(glob[0], name[0]) == Some(true) && MatchParts(m, glob[1..], name[1..])
  }

  predicate AnySkip(m: Matcher, glob: seq<string>, name: seq<string>, skip: nat)
    requires glob != [] && skip <= |name|
    decreases |glob|, |name| - skip
  {
    MatchParts(m, glob[1..], name[skip..]) || (skip < |name| && AnySkip(m, glob, name, skip + 1))
  }

  // ---- What it means ----

  // Part i of the glob takes the parts of the path from cuts[i] to cuts[i + 1].
  ghost predicate Takes(m: Matcher, part: string, name: seq<string>, a: nat, b: nat) {
    a <= b <= |name| && (part != DOUBLE_STAR ==> b == a + 1 && m(part, name[a]) == Some(true))
  }

  ghost predicate AlignsAt(m: Matcher, glob: seq<string>, name: seq<string>, cuts: seq<nat>) {
    && |cuts| == |glob| + 1 && cuts[0] == 0 && cuts[|glob|] == |name|
    && forall i | 0 <= i < |glob| :: Takes(m, glob[i], name, cuts[i], cuts[i + 1])
  }

  // The glob lines up with the path: ** takes any run of parts, each other part takes one part and matches it.
  ghost predicate Aligns(m: Matcher, glob: seq<string>, name: seq<string>) {
    exists cuts :: AlignsAt(m, glob, name, cuts)
  }

  // The first part takes so many parts of the path, and the rest of the glob lines up with what remains.
  lemma {:induction false} AlignsStep(m: Matcher, glob: seq<string>, name: seq<string>)
    requires glob != []
    ensures Aligns(m, glob, name) <==> exists b: nat :: Takes(m, glob[0], name, 0, b) && Aligns(m, glob[1..], name[b..])
  {
    if Aligns(m, glob, name) {
      var cuts :| AlignsAt(m, glob, name, cuts);
      var b := cuts[1];
      assert Takes(m, glob[0], name, cuts[0], cuts[1]);
      CutsGrow(m, glob, name, cuts, 1);
      var rest: seq<nat> := seq(|glob|, i requires 0 <= i < |glob| => cuts[i + 1] - b);
      forall i | 0 <= i < |glob| - 1
        ensures Takes(m, glob[1..][i], name[b..], rest[i], rest[i + 1])
      {
        assert Takes(m, glob[i + 1], name, cuts[i + 1], cuts[i + 2]);
      }
      assert AlignsAt(m, glob[1..], name[b..], rest);
    }
    if b: nat :| Takes(m, glob[0], name, 0, b) && Aligns(m, glob[1..], name[b..]) {
      var rest :| AlignsAt(m, glob[1..], name[b..], rest);
      var cuts: seq<nat> := [0] + seq(|glob|, i requires 0 <= i < |glob| => rest[i] + b);
      forall i | 0 <= i < |glob|
        ensures Takes(m, glob[i], name, cuts[i], cuts[i + 1])
      {
        if i > 0 {
          assert Takes(m, glob[1..][i - 1], name[b..], rest[i - 1], rest[i]);
        }
      }
      assert AlignsAt(m, glob, name, cuts);
    }
  }

  lemma {:induction false} CutsGrow(m: Matcher, glob: seq<string>, name: seq<string>, cuts: seq<nat>, i: nat)
    requires AlignsAt(m, glob, name, cuts) && i <= |glob|
    ensures forall j | i <= j <= |glob| :: cuts[i] <= cuts[j]
    decreases |glob| - i
  {
    if i < |glob| {
      assert Takes(m, glob[i], name, cuts[i], cuts[i + 1]);
      CutsGrow(m, glob, name, cuts, i + 1);
    }
  }

  // Matching part by part is lining up.
  lemma {:induction false} MatchPartsIsAligns(m: Matcher, glob: seq<string>, name: seq<string>)
    ensures MatchParts(m, glob, name) <==> Aligns(m, glob, name)
    decreases |glob|, |name| + 1
  {
    if glob == [] {
      assert name == [] ==> AlignsAt(m, glob, name, [0]);
    } else {
      AlignsStep(m, glob, name);
      if glob[0] == DOUBLE_STAR {
        AnySkipIsAligns(m, glob, name, 0);
        assert forall b: nat | b <= |name| :: Takes(m, glob[0], name, 0, b);
      } else if name != [] {
        MatchPartsIsAligns(m, glob[1..], name[1..]);
        assert m(glob[0], name[0]) == Some(true) ==> Takes(m, glob[0], name, 0, 1);
      }
    }
  }

  lemma {:induction false} AnySkipIsAligns(m: Matcher, glob: seq<string>, name: seq<string>, skip: nat)
    requires glob != [] && skip <= |name|
    ensures AnySkip(m, glob, name, skip) <==> exists b :: skip <= b <= |name| && Aligns(m, glob[1..], name[b..])
    decreases |glob|, |name| - skip
  {
    MatchPartsIsAligns(m, glob[1..], name[skip..]);
    if skip < |name| { AnySkipIsAligns(m, glob, name, skip + 1); }
  }

  // One step of expanding: the first group gives way to one of its choices.
  ghost predicate Expanded(glob: string, next: string) {
    HasGroup(glob) && exists a, b, choice :: PieceAt(Group(glob), ',', a, b, choice) && next == Choose(glob, choice)
  }

  ghost predicate IsExpansion(steps: seq<string>, glob: string, plain: string) {
    && steps != [] && steps[0] == glob && steps[|steps| - 1] == plain && !HasGroup(plain)
    && forall i | 0 <= i < |steps| - 1 :: Expanded(steps[i], steps[i + 1])
  }

  ghost predicate Expands(glob: string, plain: string) {
    exists steps :: IsExpansion(steps, glob, plain)
  }

  lemma {:induction false} ExpandsStep(glob: string, plain: string)
    ensures Expands(glob, plain) <==>
      if HasGroup(glob) then exists next :: Expanded(glob, next) && Expands(next, plain) else plain == glob
  {
    if Expands(glob, plain) {
      var steps :| IsExpansion(steps, glob, plain);
      if HasGroup(glob) {
        assert Expanded(steps[0], steps[1]);
        assert IsExpansion(steps[1..], steps[1], plain);
      } else {
        assert |steps| > 1 ==> Expanded(steps[0], steps[1]);
      }
    }
    if !HasGroup(glob) {
      assert IsExpansion([glob], glob, glob);
    } else if next :| Expanded(glob, next) && Expands(next, plain) {
      var steps :| IsExpansion(steps, next, plain);
      assert IsExpansion([glob] + steps, glob, plain);
    }
  }

  // The glob matches the path: some expansion without groups, less a leading "./", lines up with it.
  ghost predicate Means(m: Matcher, glob: string, name: string) {
    exists plain :: Expands(glob, plain) && Aligns(m, Split(TrimPrefix(plain, "./"), '/'), Split(name, '/'))
  }

  lemma {:induction false} MeansStep(m: Matcher, glob: string, name: string)
    requires HasGroup(glob)
    ensures Means(m, glob, name) <==> exists choice :: choice in Split(Group(glob), ',') && Means(m, Choose(glob, choice), name)
  {
    if Means(m, glob, name) {
      var plain :| Expands(glob, plain) && Aligns(m, Split(TrimPrefix(plain, "./"), '/'), Split(name, '/'));
      ExpandsStep(glob, plain);
      var next :| Expanded(glob, next) && Expands(next, plain);
      var a, b, choice :| PieceAt(Group(glob), ',', a, b, choice) && next == Choose(glob, choice);
      PiecesOfSplit(Group(glob), ',', choice);
      assert Means(m, Choose(glob, choice), name);
    }
    if choice :| choice in Split(Group(glob), ',') && Means(m, Choose(glob, choice), name) {
      PiecesOfSplit(Group(glob), ',', choice);
      assert Expanded(glob, Choose(glob, choice));
      var plain :| Expands(Choose(glob, choice), plain) && Aligns(m, Split(TrimPrefix(plain, "./"), '/'), Split(name, '/'));
      ExpandsStep(glob, plain);
    }
  }

  // The matcher decides exactly what the glob means.
  lemma {:induction false} MatchesGlobMeans(m: Matcher, glob: string, name: string)
    ensures MatchesGlob(m, glob, name) <==> Means(m, glob, name)
    decreases |glob|, 1
  {
    if HasGroup(glob) {
      PiecesAreNoLonger(Group(glob), ',');
      MeansStep(m, glob, name);
      AnyChoiceMeans(m, glob, Split(Group(glob), ','), name);
    } else {
      MatchPartsIsAligns(m, Split(TrimPrefix(glob, "./"), '/'), Split(name, '/'));
      ExpandsStep(glob, glob);
      forall plain | Expands(glob, plain)
        ensures plain == glob
      {
        ExpandsStep(glob, plain);
      }
    }
  }

  lemma {:induction false} AnyChoiceMeans(m: Matcher, glob: string, choices: seq<string>, name: string)
    requires HasGroup(glob) && forall choice | choice in choices :: |choice| <= |Group(glob)|
    ensures AnyChoice(m, glob, choices, name) <==> exists choice :: choice in choices && Means(m, Choose(glob, choice), name)
    decreases |glob|, 0, |choices|
  {
    if choices != [] {
      MatchesGlobMeans(m, Choose(glob, choices[0]), name);
      AnyChoiceMeans(m, glob, choices[1..], name);
    }
  }
}
