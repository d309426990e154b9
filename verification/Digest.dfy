// internal/compiler/component_digest.go: the digest of one component's content. A Go string or byte slice is a
// Dafny string with one character for each byte.
module Digest {
  import opened Numerals
  import opened Order
  import opened Text
  import opened Wrappers

  // ---- Fixed-width framing ----

  // The number in so many bytes, the highest first.
  function BigEndian(n: nat, width: nat): (s: string)
    ensures |s| == width
    decreases width
  {
    if width == 0 then "" else BigEndian(n / 256, width - 1) + [(n % 256) as char]
  }

  function Power(width: nat): nat {
    if width == 0 then 1 else 256 * Power(width - 1)
  }

  lemma {:induction false} BigEndianIsInjective(n: nat, m: nat, width: nat)
    requires n < Power(width) && m < Power(width) && BigEndian(n, width) == BigEndian(m, width)
    ensures n == m
    decreases width
  {
    if width > 0 {
      var a, b := BigEndian(n, width), BigEndian(m, width);
      assert a[..width - 1] == BigEndian(n / 256, width - 1) && b[..width - 1] == BigEndian(m / 256, width - 1);
      assert a[width - 1] == (n % 256) as char && b[width - 1] == (m % 256) as char;
      assert (n % 256) as char as int == n % 256 && (m % 256) as char as int == m % 256;
      BigEndianIsInjective(n / 256, m / 256, width - 1);
    }
  }

  // Writes the number into the eight bytes of the array, which are used again for every number.
  method PutUint64(length: array<char>, n: nat)
    requires length.Length == 8
    modifies length
    ensures length[..] == BigEndian(n, 8)
  {
    var left := n;
    ghost var tail: string := "";
    for i := 8 downto 0
      invariant length[i..] == tail && BigEndian(left, i) + tail == BigEndian(n, 8)
    {
      length[i] := (left % 256) as char;
      tail := [(left % 256) as char] + tail;
      left := left / 256;
    }
  }

  // ---- Hexadecimal ----

  function Hex(s: string): (r: string)
    requires IsBytes(s)
    ensures |r| == 2 * |s|
  {
    if s == "" then "" else [DigitOf(s[0] as int / 16), DigitOf(s[0] as int % 16)] + Hex(s[1..])
  }

  predicate IsBytes(s: string) {
    forall i | 0 <= i < |s| :: s[i] as int < 256
  }

  lemma {:induction false} HexIsInjective(a: string, b: string)
    requires IsBytes(a) && IsBytes(b) && Hex(a) == Hex(b)
    ensures a == b
    decreases |a|
  {
    assert |a| == |b|;
    if a != "" {
      var x, y := Hex(a), Hex(b);
      assert x[0] == DigitOf(a[0] as int / 16) && y[0] == DigitOf(b[0] as int / 16);
      assert x[1] == DigitOf(a[0] as int % 16) && y[1] == DigitOf(b[0] as int % 16);
      DigitReadsBack(a[0] as int / 16);
      DigitReadsBack(b[0] as int / 16);
      DigitReadsBack(a[0] as int % 16);
      DigitReadsBack(b[0] as int % 16);
      assert x[2..] == Hex(a[1..]) && y[2..] == Hex(b[1..]);
      HexIsInjective(a[1..], b[1..]);
      assert a == [a[0]] + a[1..] && b == [b[0]] + b[1..];
    }
  }

  // ---- The definition without its lifecycle ----

  // A node of a YAML mapping: a key or a value, with whatever is below it.
  datatype Node = Node(value: string, below: string)

  // The nodes of the one mapping of a document: keys and values in turn.
  type Mapping = seq<Node>

  const LIFECYCLE_KEYS: set<string> := {"stage", "sunset"}

  // How definitions are read and written: reading gives none for what is not one mapping.
  datatype Yaml = Yaml(parse: string -> Option<Mapping>, encode: Mapping -> string)

  function WithoutLifecycle(nodes: Mapping): Mapping {
    if |nodes| < 2 then []
    else (if nodes[0].value in LIFECYCLE_KEYS then [] else nodes[..2]) + WithoutLifecycle(nodes[2..])
  }

  // The pairs up to the place, then what comes after.
  lemma {:induction false} PairByPair(nodes: Mapping, i: nat)
    requires i % 2 == 0 && i + 1 < |nodes|
    ensures WithoutLifecycle(nodes[..i + 2]) ==
      WithoutLifecycle(nodes[..i]) + if nodes[i].value in LIFECYCLE_KEYS then [] else [nodes[i], nodes[i + 1]]
    decreases i
  {
    var here := nodes[..i + 2];
    if i == 0 {
      assert here[2..] == [] && here[..2] == [nodes[0], nodes[1]];
    } else {
      PairByPair(nodes[2..], i - 2);
      assert here[2..] == nodes[2..][..i] && here[..2] == nodes[..2];
      assert nodes[..i][2..] == nodes[2..][..i - 2] && nodes[..i][..2] == nodes[..2];
    }
  }

  lemma {:induction false} OddIsDropped(nodes: Mapping)
    ensures WithoutLifecycle(nodes) == WithoutLifecycle(nodes[..|nodes| - |nodes| % 2])
  {
    if |nodes| >= 2 {
      var even := nodes[..|nodes| - |nodes| % 2];
      OddIsDropped(nodes[2..]);
      assert even[2..] == nodes[2..][..|nodes[2..]| - |nodes[2..]| % 2] && even[..2] == nodes[..2];
    }
  }

  method RemoveLifecycle(definition: string, yaml: Yaml) returns (content: Option<string>)
    ensures content == match yaml.parse(definition) case None => None case Some(nodes) => Some(yaml.encode(WithoutLifecycle(nodes)))
  {
    var document := yaml.parse(definition);
    if document.None? { return None; }
    var nodes, kept, i := document.value, [], 0;
    while i + 1 < |nodes|
      invariant 0 <= i <= |nodes| && i % 2 == 0
      invariant kept == WithoutLifecycle(nodes[..i])
    {
      PairByPair(nodes, i);
      if nodes[i].value !in LIFECYCLE_KEYS { kept := kept + [nodes[i], nodes[i + 1]]; }
      i := i + 2;
    }
    OddIsDropped(nodes);
    assert i == |nodes| - |nodes| % 2;
    return Some(yaml.encode(kept));
  }

  // The pairs of the mapping that are about the content, each with its value, in order.
  function ContentPairs(nodes: Mapping): seq<(Node, Node)> {
    if |nodes| < 2 then []
    else (if nodes[0].value in LIFECYCLE_KEYS then [] else [(nodes[0], nodes[1])]) + ContentPairs(nodes[2..])
  }

  // What is kept is exactly those pairs: no promotion along the stages shows in it, and every other change does.
  lemma {:induction false} KeptIsContent(a: Mapping, b: Mapping)
    ensures WithoutLifecycle(a) == WithoutLifecycle(b) <==> ContentPairs(a) == ContentPairs(b)
  {
    KeptDetermines(a);
    KeptDetermines(b);
    if WithoutLifecycle(a) == WithoutLifecycle(b) {
      assert Paired(WithoutLifecycle(a)) == Paired(WithoutLifecycle(b));
    }
    if ContentPairs(a) == ContentPairs(b) {
      assert Flat(ContentPairs(a)) == Flat(ContentPairs(b));
    }
  }

  function Paired(nodes: Mapping): seq<(Node, Node)> {
    if |nodes| < 2 then [] else [(nodes[0], nodes[1])] + Paired(nodes[2..])
  }

  function Flat(pairs: seq<(Node, Node)>): Mapping {
    if pairs == [] then [] else [pairs[0].0, pairs[0].1] + Flat(pairs[1..])
  }

  lemma {:induction false} KeptDetermines(nodes: Mapping)
    ensures Paired(WithoutLifecycle(nodes)) == ContentPairs(nodes)
    ensures Flat(ContentPairs(nodes)) == WithoutLifecycle(nodes)
  {
    if |nodes| >= 2 {
      KeptDetermines(nodes[2..]);
      if nodes[0].value !in LIFECYCLE_KEYS {
        var kept := WithoutLifecycle(nodes);
        assert kept == [nodes[0], nodes[1]] + WithoutLifecycle(nodes[2..]);
        assert kept[2..] == WithoutLifecycle(nodes[2..]);
        assert ContentPairs(nodes)[1..] == ContentPairs(nodes[2..]);
      } else {
        assert WithoutLifecycle(nodes) == WithoutLifecycle(nodes[2..]);
        assert ContentPairs(nodes) == ContentPairs(nodes[2..]);
      }
    }
  }

  // ---- The content of a component ----

  type Files = map<string, string>

  const DEFINITION := "component.yaml"

  predicate FolderName(name: string) {
    name != "" && '/' !in name && '\\' !in name && name != "." && name != ".."
  }

  function Prefix(name: string): string {
    "components/" + name + "/"
  }

  function Below(files: Files, name: string): set<string> {
    set file | file in files && HasPrefix(file, Prefix(name)) :: file[|Prefix(name)|..]
  }

  lemma {:induction false} BelowIs(files: Files, name: string)
    ensures forall relative :: relative in Below(files, name) <==> Prefix(name) + relative in files
  {
    var prefix := Prefix(name);
    forall relative
      ensures relative in Below(files, name) <==> prefix + relative in files
    {
      if prefix + relative in files {
        assert (prefix + relative)[..|prefix|] == prefix && (prefix + relative)[|prefix|..] == relative;
      }
      if relative in Below(files, name) {
        var file :| file in files && HasPrefix(file, prefix) && file[|prefix|..] == relative;
        assert file == prefix + relative;
      }
    }
  }

  // The component's own files, by their path below its folder.
  function Own(files: Files, name: string): Files {
    BelowIs(files, name);
    map relative | relative in Below(files, name) :: files[Prefix(name) + relative]
  }

  // What the digest is about: the component's own files, its definition without the lifecycle.
  function Content(files: Files, name: string, yaml: Yaml): Option<Files> {
    var own := Own(files, name);
    if !FolderName(name) || DEFINITION !in own || yaml.parse(own[DEFINITION]).None? then None
    else Some(own[DEFINITION := yaml.encode(WithoutLifecycle(yaml.parse(own[DEFINITION]).value))])
  }

  // ---- The stream that is hashed ----

  type Hash = string -> string

  const SUM_SIZE := 32

  // A hash gives so many bytes for every input.
  ghost predicate IsHash(h: Hash) {
    forall s :: |h(s)| == SUM_SIZE && IsBytes(h(s))
  }

  const DOMAIN := "stego-component-content-v1\U{0}"

  // How lengths are written, and how data is hashed.
  datatype Format = Format(width: nat, h: Hash)

  // The format of component digests: eight bytes for each length.
  function Eight(h: Hash): Format {
    Format(8, h)
  }

  // One file: how long its path is, the path, how long its data is, and the hash of the data.
  function Frame(relative: string, data: string, f: Format): string {
    BigEndian(|relative|, f.width) + relative + BigEndian(|data|, f.width) + f.h(data)
  }

  function Frames(paths: seq<string>, content: Files, f: Format): string
    requires forall p | p in paths :: p in content
  {
    if paths == [] then "" else Frame(paths[0], content[paths[0]], f) + Frames(paths[1..], content, f)
  }

  // Wide enough for every length, with a hash of one size.
  ghost predicate IsFormat(f: Format) {
    0x8000_0000_0000_0000 <= Power(f.width) && IsHash(f.h)
  }

  // Go's strings and slices are shorter than 2^63.
  ghost predicate GoSizes(content: Files) {
    forall p | p in content :: GoSize(p) && GoSize(content[p])
  }

  lemma {:induction false} EightIsFormat(h: Hash)
    requires IsHash(h)
    ensures IsFormat(Eight(h))
  {
    assert Power(4) == 0x1_0000_0000;
    assert Power(8) == 256 * (256 * (256 * (256 * Power(4))));
  }

  // Two texts of four parts and what follows, where each part tells how long the next one is or has one size.
  lemma {:induction false} PartByPart(a: seq<string>, b: seq<string>, rest: string, more: string)
    requires |a| == |b| == 4 && |a[0]| == |b[0]| && |a[2]| == |b[2]| && |a[3]| == |b[3]|
    requires a[0] == b[0] ==> |a[1]| == |b[1]|
    requires a[0] + a[1] + a[2] + a[3] + rest == b[0] + b[1] + b[2] + b[3] + more
    ensures a == b && rest == more
  {
    assert a[0] + a[1] + a[2] + a[3] + rest == a[0] + (a[1] + (a[2] + (a[3] + rest)));
    assert b[0] + b[1] + b[2] + b[3] + more == b[0] + (b[1] + (b[2] + (b[3] + more)));
    SamePrefix(a[0], b[0], a[1] + (a[2] + (a[3] + rest)), b[1] + (b[2] + (b[3] + more)));
    SamePrefix(a[1], b[1], a[2] + (a[3] + rest), b[2] + (b[3] + more));
    SamePrefix(a[2], b[2], a[3] + rest, b[3] + more);
    SamePrefix(a[3], b[3], rest, more);
  }

  ghost predicate GoSize(s: string) {
    |s| < 0x8000_0000_0000_0000
  }

  // A frame tells its path and how long its data is, and where it ends.
  lemma {:induction false} FrameIsUnique(p: string, q: string, data: string, other: string, f: Format, rest: string,
          more: string)
    requires IsFormat(f) && GoSize(p) && GoSize(q) && GoSize(data) && GoSize(other)
    requires Frame(p, data, f) + rest == Frame(q, other, f) + more
    ensures p == q && |data| == |other| && f.h(data) == f.h(other) && rest == more
  {
    if BigEndian(|p|, f.width) == BigEndian(|q|, f.width) { BigEndianIsInjective(|p|, |q|, f.width); }
    PartByPart([BigEndian(|p|, f.width), p, BigEndian(|data|, f.width), f.h(data)],
               [BigEndian(|q|, f.width), q, BigEndian(|other|, f.width), f.h(other)], rest, more);
    BigEndianIsInjective(|data|, |other|, f.width);
  }

  lemma {:induction false} SamePrefix(a: string, b: string, rest: string, more: string)
    requires |a| == |b| && a + rest == b + more
    ensures a == b && rest == more
  {
    var s := a + rest;
    assert s[..|a|] == a && s[|a|..] == rest;
    assert s[..|b|] == b && s[|b|..] == more;
  }

  // Each path of the one list has data as long in the other content, with the same hash.
  ghost predicate SameSums(paths: seq<string>, a: Files, b: Files, h: Hash) {
    forall p | p in paths :: p in a && p in b && |a[p]| == |b[p]| && h(a[p]) == h(b[p])
  }

  // Equal streams frame the same paths, each with data that is equally long and has the same hash.
  lemma {:induction false} FramesAreUnique(ps: seq<string>, qs: seq<string>, a: Files, b: Files, f: Format)
    requires IsFormat(f) && GoSizes(a) && GoSizes(b)
    requires (forall p | p in ps :: p in a) && (forall q | q in qs :: q in b)
    requires Frames(ps, a, f) == Frames(qs, b, f)
    ensures ps == qs && SameSums(ps, a, b, f.h)
    decreases |ps|
  {
    if ps == [] || qs == [] {
      FramesAreNotEmpty(ps, a, f);
      FramesAreNotEmpty(qs, b, f);
    } else {
      assert ps[0] in ps && qs[0] in qs;
      FrameIsUnique(ps[0], qs[0], a[ps[0]], b[qs[0]], f, Frames(ps[1..], a, f), Frames(qs[1..], b, f));
      FramesAreUnique(ps[1..], qs[1..], a, b, f);
      assert ps == [ps[0]] + ps[1..] && qs == [qs[0]] + qs[1..];
    }
  }

  lemma {:induction false} FramesAreNotEmpty(paths: seq<string>, content: Files, f: Format)
    requires IsFormat(f) && forall p | p in paths :: p in content
    ensures Frames(paths, content, f) == "" <==> paths == []
  {
    if paths != [] { assert |f.h(content[paths[0]])| == SUM_SIZE; }
  }

  // The paths of the content in byte order.
  ghost predicate InOrder(paths: seq<string>, content: Files) {
    SortedListOf(paths, content.Keys)
  }

  // ---- The digest ----

  // The stream is that of the content, and the digest is its hash, in hexadecimal.
  ghost predicate IsDigest(content: Files, f: Format, stream: string, digest: string)
    requires IsHash(f.h)
  {
    digest == Hex(f.h(stream)) && exists paths :: IsStream(paths, content, f, stream)
  }

  ghost predicate IsStream(paths: seq<string>, content: Files, f: Format, stream: string) {
    InOrder(paths, content) && stream == DOMAIN + Frames(paths, content, f)
  }

  // Computes the digest, or refuses a name that is no folder and a component with no definition that can be read.
  method ComponentDigest(files: Files, name: string, yaml: Yaml, h: Hash)
    returns (digest: Option<string>, ghost stream: string)
    requires IsHash(h)
    ensures digest.Some? <==> Content(files, name, yaml).Some?
    ensures digest.Some? ==> IsDigest(Content(files, name, yaml).value, Eight(h), stream, digest.value)
  {
    stream := "";
    if !FolderName(name) { return None, stream; }
    var own := CollectOwn(files, name);
    if DEFINITION !in own { return None, stream; }
    var content := RemoveLifecycle(own[DEFINITION], yaml);
    if content.None? { return None, stream; }
    own := own[DEFINITION := content.value];
    assert Content(files, name, yaml) == Some(own);
    var paths := SortedKeys(own.Keys);
    var state := WriteFrames(paths, own, h);
    assert IsStream(paths, own, Eight(h), state);
    stream := state;
    digest := Some(Hex(h(state)));
  }

  method CollectOwn(files: Files, name: string) returns (own: Files)
    ensures own == Own(files, name)
  {
    BelowIs(files, name);
    own := map[];
    var left := files.Keys;
    while left != {}
      invariant left <= files.Keys
      invariant forall r | r in own :: Prefix(name) + r in files && own[r] == files[Prefix(name) + r]
      invariant forall r :: r in own <==> Prefix(name) + r in files.Keys - left
      decreases |left|
    {
      var file :| file in left;
      left := left - {file};
      if HasPrefix(file, Prefix(name)) {
        var relative := file[|Prefix(name)|..];
        assert file == Prefix(name) + relative;
        assert forall r :: Prefix(name) + r == file ==> r == relative by { SuffixIsUnique(Prefix(name), relative); }
        own := own[relative := files[file]];
      } else {
        NotBelow(file, Prefix(name));
      }
    }
  }

  lemma {:induction false} SuffixIsUnique(prefix: string, relative: string)
    ensures forall r :: prefix + r == prefix + relative ==> r == relative
  {
    forall r | prefix + r == prefix + relative
      ensures r == relative
    {
      SamePrefix(prefix, prefix, r, relative);
    }
  }

  lemma {:induction false} NotBelow(file: string, prefix: string)
    requires !HasPrefix(file, prefix)
    ensures forall r :: prefix + r != file
  {
    forall r
      ensures prefix + r != file
    {
      assert (prefix + r)[..|prefix|] == prefix;
    }
  }

  method WriteFrames(paths: seq<string>, content: Files, h: Hash) returns (state: string)
    requires forall p | p in paths :: p in content
    ensures state == DOMAIN + Frames(paths, content, Eight(h))
  {
    state := DOMAIN;
    var length := new char[8];
    for i := 0 to |paths|
      invariant state + Frames(paths[i..], content, Eight(h)) == DOMAIN + Frames(paths, content, Eight(h))
    {
      var relative := paths[i];
      var data := content[relative];
      PutUint64(length, |relative|);
      var frame := length[..] + relative;
      PutUint64(length, |data|);
      frame := frame + length[..] + h(data);
      assert frame == Frame(relative, data, Eight(h));
      FramesStep(paths, i, content, Eight(h), state);
      state := state + frame;
    }
  }

  lemma {:induction false} FramesStep(paths: seq<string>, i: nat, content: Files, f: Format, before: string)
    requires i < |paths| && forall p | p in paths :: p in content
    ensures before + Frame(paths[i], content[paths[i]], f) + Frames(paths[i + 1..], content, f) == before + Frames(paths[i..], content, f)
  {
    assert paths[i..][0] == paths[i] && paths[i..][1..] == paths[i + 1..];
  }

  // The hash tells the two apart, or they are the same.
  ghost predicate NoCollision(h: Hash, x: string, y: string) {
    h(x) == h(y) ==> x == y
  }

  // Equal streams come from contents with the same paths, whose data has the same lengths and hashes.
  lemma {:induction false} SameStream(a: Files, b: Files, f: Format, ps: seq<string>, qs: seq<string>, s: string)
    requires IsFormat(f) && GoSizes(a) && GoSizes(b)
    requires IsStream(ps, a, f, s) && IsStream(qs, b, f, s)
    ensures ps == qs && a.Keys == b.Keys && SameSums(ps, a, b, f.h)
  {
    SamePrefix(DOMAIN, DOMAIN, Frames(ps, a, f), Frames(qs, b, f));
    FramesAreUnique(ps, qs, a, b, f);
    forall p
      ensures p in a.Keys <==> p in b.Keys
    {
      assert p in ps <==> p in a.Keys;
      assert p in qs <==> p in b.Keys;
    }
  }

  // Equal digests hold exactly when the components have the same files with the same bytes, whatever else the
  // registries hold, so long as the hash tells apart the two streams and the two versions of each file.
  lemma {:induction false} SameDigestSameContent(a: Files, b: Files, f: Format, s: string, t: string, x: string,
          y: string)
    requires IsFormat(f) && GoSizes(a) && GoSizes(b)
    requires IsDigest(a, f, s, x) && IsDigest(b, f, t, y)
    requires NoCollision(f.h, s, t)
    requires forall p | p in a && p in b :: NoCollision(f.h, a[p], b[p])
    ensures x == y <==> a == b
  {
    var ps :| IsStream(ps, a, f, s);
    var qs :| IsStream(qs, b, f, t);
    if x == y {
      HexIsInjective(f.h(s), f.h(t));
      SameStream(a, b, f, ps, qs, s);
      forall p | p in a
        ensures a[p] == b[p]
      {
        assert p in ps && NoCollision(f.h, a[p], b[p]);
      }
    }
    if a == b {
      SortedListIsUnique(ps, qs, a.Keys);
    }
  }

  // Without that, equal digests of different contents show a collision: of the streams, or of one file.
  lemma {:induction false} OtherwiseACollision(a: Files, b: Files, f: Format, s: string, t: string, x: string,
          y: string)
    requires IsFormat(f) && GoSizes(a) && GoSizes(b)
    requires IsDigest(a, f, s, x) && IsDigest(b, f, t, y)
    requires x == y && a != b
    ensures !NoCollision(f.h, s, t) || exists p :: p in a && p in b && |a[p]| == |b[p]| && !NoCollision(f.h, a[p], b[p])
  {
    var ps :| IsStream(ps, a, f, s);
    var qs :| IsStream(qs, b, f, t);
    HexIsInjective(f.h(s), f.h(t));
    if s == t {
      SameStream(a, b, f, ps, qs, s);
      var p :| p in a && a[p] != b[p];
      assert p in ps;
    }
  }

  // So two component digests are equal exactly when the components' contents are.
  lemma {:induction false} SameComponents(files: Files, name: string, others: Files, other: string, yaml: Yaml,
          h: Hash, s: string, t: string, x: string, y: string)
    requires IsHash(h) && Content(files, name, yaml).Some? && Content(others, other, yaml).Some?
    requires GoSizes(Content(files, name, yaml).value) && GoSizes(Content(others, other, yaml).value)
    requires IsDigest(Content(files, name, yaml).value, Eight(h), s, x)
    requires IsDigest(Content(others, other, yaml).value, Eight(h), t, y)
    requires NoCollision(h, s, t)
    requires var a, b := Content(files, name, yaml).value, Content(others, other, yaml).value;
      forall p | p in a && p in b :: NoCollision(h, a[p], b[p])
    ensures x == y <==> Content(files, name, yaml) == Content(others, other, yaml)
  {
    EightIsFormat(h);
    SameDigestSameContent(Content(files, name, yaml).value, Content(others, other, yaml).value, Eight(h), s, t, x, y);
  }

  // Different mappings are written differently.
  ghost predicate WritesApart(yaml: Yaml) {
    forall a, b | yaml.encode(a) == yaml.encode(b) :: a == b
  }

  // The other files are the same, and the definitions have the same pairs apart from the stage and the sunset.
  ghost predicate SameBesidesLifecycle(a: Files, b: Files, yaml: Yaml)
    requires DEFINITION in a && DEFINITION in b
    requires yaml.parse(a[DEFINITION]).Some? && yaml.parse(b[DEFINITION]).Some?
  {
    && (forall r | r != DEFINITION :: r in a <==> r in b)
    && (forall r | r != DEFINITION && r in a && r in b :: a[r] == b[r])
    && ContentPairs(yaml.parse(a[DEFINITION]).value) == ContentPairs(yaml.parse(b[DEFINITION]).value)
  }

  lemma {:induction false} SameContent(files: Files, name: string, others: Files, other: string, yaml: Yaml)
    requires Content(files, name, yaml).Some? && Content(others, other, yaml).Some? && WritesApart(yaml)
    ensures Content(files, name, yaml) == Content(others, other, yaml) <==>
      SameBesidesLifecycle(Own(files, name), Own(others, other), yaml)
  {
    var a, b := Own(files, name), Own(others, other);
    var kept, left := yaml.parse(a[DEFINITION]).value, yaml.parse(b[DEFINITION]).value;
    var x, y := Content(files, name, yaml).value, Content(others, other, yaml).value;
    KeptIsContent(kept, left);
    assert x[DEFINITION] == yaml.encode(WithoutLifecycle(kept)) && y[DEFINITION] == yaml.encode(WithoutLifecycle(left));
    assert forall r | r != DEFINITION :: (r in x <==> r in a) && (r in y <==> r in b);
    assert forall r | r != DEFINITION && r in a :: x[r] == a[r];
    assert forall r | r != DEFINITION && r in b :: y[r] == b[r];
    if SameBesidesLifecycle(a, b, yaml) {
      assert x == y;
    }
  }

  // In terms of the files themselves: two digests are equal exactly when the components have the same other files and
  // definitions that differ in their lifecycle alone.
  lemma {:induction false} SameDigestSameFiles(files: Files, name: string, others: Files, other: string, yaml: Yaml,
          h: Hash, s: string, t: string, x: string, y: string)
    requires IsHash(h) && Content(files, name, yaml).Some? && Content(others, other, yaml).Some? && WritesApart(yaml)
    requires GoSizes(Content(files, name, yaml).value) && GoSizes(Content(others, other, yaml).value)
    requires IsDigest(Content(files, name, yaml).value, Eight(h), s, x)
    requires IsDigest(Content(others, other, yaml).value, Eight(h), t, y)
    requires NoCollision(h, s, t)
    requires var a, b := Content(files, name, yaml).value, Content(others, other, yaml).value;
      forall p | p in a && p in b :: NoCollision(h, a[p], b[p])
    ensures x == y <==> SameBesidesLifecycle(Own(files, name), Own(others, other), yaml)
  {
    SameComponents(files, name, others, other, yaml, h, s, t, x, y);
    SameContent(files, name, others, other, yaml);
  }

  // Nothing outside the component's folder has a part in its content.
  lemma {:induction false} OnlyOwnFilesCount(files: Files, others: Files, name: string, yaml: Yaml)
    requires forall r :: Prefix(name) + r in files <==> Prefix(name) + r in others
    requires forall r | Prefix(name) + r in files :: files[Prefix(name) + r] == others[Prefix(name) + r]
    ensures Content(files, name, yaml) == Content(others, name, yaml)
  {
    BelowIs(files, name);
    BelowIs(others, name);
    assert Own(files, name) == Own(others, name);
  }

  // A promotion, which changes nothing but the stage and the sunset, leaves the content as it was.
  lemma {:induction false} PromotionKeepsContent(files: Files, name: string, definition: string, yaml: Yaml)
    requires Content(files, name, yaml).Some? && yaml.parse(definition).Some?
    requires ContentPairs(yaml.parse(Own(files, name)[DEFINITION]).value) == ContentPairs(yaml.parse(definition).value)
    ensures Content(files[Prefix(name) + DEFINITION := definition], name, yaml) == Content(files, name, yaml)
  {
    var after := files[Prefix(name) + DEFINITION := definition];
    BelowIs(files, name);
    BelowIs(after, name);
    KeptIsContent(yaml.parse(Own(files, name)[DEFINITION]).value, yaml.parse(definition).value);
    SuffixIsUnique(Prefix(name), DEFINITION);
    forall r
      ensures r in Own(after, name) <==> r in Own(files, name)
      ensures r in Own(after, name) ==> Own(after, name)[r] == if r == DEFINITION then definition else Own(files, name)[r]
    {
      assert r in Below(after, name) <==> Prefix(name) + r in after;
      assert r in Below(files, name) <==> Prefix(name) + r in files;
    }
    var own := Own(files, name);
    assert Own(after, name) == own[DEFINITION := definition];
    var content := yaml.encode(WithoutLifecycle(yaml.parse(definition).value));
    assert own[DEFINITION := definition][DEFINITION := content] == own[DEFINITION := content];
  }
}
