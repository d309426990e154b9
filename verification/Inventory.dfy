// internal/appbuild/inventory.go: which paths an inventory may hold, and the inventory of a tree.
module Inventory {
  import opened Json
  import opened Order
  import opened Text
  import opened Wrappers

  // ---- Safe paths ----

  function Utf8Length(s: string): nat {
    if s == "" then 0
    else (if s[0] as int < 0x80 then 1 else if s[0] as int < 0x800 then 2 else if s[0] as int < 0x10000 then 3 else 4) + Utf8Length(s[1..])
  }

  // path.Clean, part by part: empty parts and dots go, and two dots take the part before them along.
  function CleanParts(parts: seq<string>, rooted: bool, done: seq<string>): seq<string>
    decreases parts
  {
    if parts == [] then done
    else if parts[0] == "" || parts[0] == "." then CleanParts(parts[1..], rooted, done)
    else if parts[0] == ".." && done != [] && done[|done| - 1] != ".." then CleanParts(parts[1..], rooted, done[..|done| - 1])
    else if parts[0] == ".." && rooted then CleanParts(parts[1..], rooted, done)
    else CleanParts(parts[1..], rooted, done + [parts[0]])
  }

  function Clean(name: string): string {
    var rooted := HasPrefix(name, "/");
    var kept := CleanParts(Split(name, '/'), rooted, []);
    if rooted then "/" + Join(kept, "/") else if kept == [] then "." else Join(kept, "/")
  }

  predicate GoodCharacters(name: string) {
    Utf8Length(name) <= 4096 && forall c | c in name :: c as int >= 32 && c as int != 127 && c != '\\' && c != ':'
  }

  predicate SafePath(name: string) {
    && name != "" && name != "." && Clean(name) == name && !HasPrefix(name, "/")
    && GoodCharacters(name)
    && (forall part | part in Split(name, '/') :: part != ".." && part != ".git")
  }

  // A part of a path that names a file or a folder below the one before it.
  predicate PlainPart(part: string) {
    part != "" && part != "." && part != ".." && part != ".git"
  }

  function Kept(parts: seq<string>): seq<string> {
    if parts == [] then []
    else (if parts[0] == "" || parts[0] == "." then [] else [parts[0]]) + Kept(parts[1..])
  }

  lemma {:induction false} CleanKeeps(parts: seq<string>, done: seq<string>)
    requires ".." !in parts
    ensures CleanParts(parts, false, done) == done + Kept(parts)
    decreases parts
  {
    if parts != [] {
      assert parts[0] in parts && ".." !in parts[1..];
      if parts[0] == "" || parts[0] == "." {
        CleanKeeps(parts[1..], done);
      } else {
        CleanKeeps(parts[1..], done + [parts[0]]);
        OneMore(done, parts[0], Kept(parts[1..]));
      }
    }
  }

  lemma {:induction false} OneMore(done: seq<string>, part: string, rest: seq<string>)
    ensures done + [part] + rest == done + ([part] + rest)
  {
  }

  lemma {:induction false} KeptParts(parts: seq<string>)
    ensures forall part | part in Kept(parts) :: part in parts && part != "" && part != "."
    ensures "" !in parts && "." !in parts ==> Kept(parts) == parts
  {
    if parts != [] {
      KeptParts(parts[1..]);
      assert parts[0] in parts && forall part | part in parts[1..] :: part in parts;
      assert parts == [parts[0]] + parts[1..];
    }
  }

  // A path is safe exactly when each of its parts leads on downwards, and its characters are allowed.
  lemma {:induction false} SafeIsPlain(name: string)
    ensures SafePath(name) <==> GoodCharacters(name) && forall part | part in Split(name, '/') :: PlainPart(part)
  {
    var parts := Split(name, '/');
    KeptParts(parts);
    SplitThenJoin(name, '/');
    if SafePath(name) {
      CleanKeeps(parts, []);
      assert [] + Kept(parts) == Kept(parts);
      PiecesHaveNoSeparator(name, '/');
      JoinThenSplit(Kept(parts), '/');
      assert parts == Kept(parts);
    }
    if GoodCharacters(name) && forall part | part in parts :: PlainPart(part) {
      FirstPart(name);
      CleanKeeps(parts, []);
      assert [] + Kept(parts) == parts;
      assert Clean(name) == name;
    }
  }

  lemma {:induction false} FirstPart(name: string)
    requires forall part | part in Split(name, '/') :: PlainPart(part)
    ensures name != "" && name != "." && !HasPrefix(name, "/")
  {
    assert Split(name, '/')[0] in Split(name, '/');
    SplitAlone(".", '/');
  }

  // ---- The inventory ----

  datatype Kind = Folder | Regular(sha256: string, size: nat, executable: bool) | Unusable

  // What the walk over a tree meets, in its order: folders, regular files, and what is neither or cannot be read.
  datatype Entry = Entry(path: string, kind: Kind)

  datatype Summary = Summary(sha256: string, files: nat, bytes: nat)

  const ENTRY_LIMIT := 200000
  const DEPTH_LIMIT := 64

  function FilesOf(entries: seq<Entry>): seq<File> {
    if entries == [] then []
    else
      var last := entries[|entries| - 1];
      FilesOf(entries[..|entries| - 1]) +
      if last.kind.Regular? then [File(last.path, last.kind.sha256, last.kind.executable)] else []
  }

  function BytesOf(entries: seq<Entry>): nat {
    if entries == [] then 0
    else
      var last := entries[|entries| - 1];
      BytesOf(entries[..|entries| - 1]) + if last.kind.Regular? then last.kind.size else 0
  }

  // The walk goes on past this entry.
  predicate Fits(entries: seq<Entry>, i: nat, fileLimit: int, byteLimit: int)
    requires i < |entries|
  {
    var entry := entries[i];
    && i + 1 <= ENTRY_LIMIT && |Split(entry.path, '/')| <= DEPTH_LIMIT && SafePath(entry.path)
    && !entry.kind.Unusable?
    && (entry.kind.Regular? ==> |FilesOf(entries[..i])| < fileLimit && BytesOf(entries[..i + 1]) <= byteLimit)
  }

  lemma {:induction false} TakeNext(entries: seq<Entry>, i: nat)
    requires i < |entries|
    ensures FilesOf(entries[..i + 1]) == FilesOf(entries[..i]) +
      if entries[i].kind.Regular? then [File(entries[i].path, entries[i].kind.sha256, entries[i].kind.executable)] else []
    ensures BytesOf(entries[..i + 1]) == BytesOf(entries[..i]) + if entries[i].kind.Regular? then entries[i].kind.size else 0
  {
    assert entries[..i + 1][..i] == entries[..i];
  }

  method Walk(entries: seq<Entry>, fileLimit: int, byteLimit: int) returns (ok: bool, files: seq<File>, bytes: nat)
    ensures ok <==> forall i | 0 <= i < |entries| :: Fits(entries, i, fileLimit, byteLimit)
    ensures ok ==> files == FilesOf(entries) && bytes == BytesOf(entries)
  {
    files, bytes := [], 0;
    for i := 0 to |entries|
      invariant forall k | 0 <= k < i :: Fits(entries, k, fileLimit, byteLimit)
      invariant files == FilesOf(entries[..i]) && bytes == BytesOf(entries[..i])
    {
      TakeNext(entries, i);
      var entry := entries[i];
      if i + 1 > ENTRY_LIMIT || |Split(entry.path, '/')| > DEPTH_LIMIT || !SafePath(entry.path) {
        assert !Fits(entries, i, fileLimit, byteLimit);
        return false, [], 0;
      }
      match entry.kind {
        case Folder =>
        case Unusable =>
          assert !Fits(entries, i, fileLimit, byteLimit);
          return false, [], 0;
        case Regular(sha256, size, executable) =>
          bytes := bytes + size;
          if |files| >= fileLimit || bytes > byteLimit {
            assert !Fits(entries, i, fileLimit, byteLimit);
            return false, [], 0;
          }
          files := files + [File(entry.path, sha256, executable)];
      }
    }
    assert entries[..|entries|] == entries;
    ok := true;
  }

  const PATH: File -> string := (f: File) => f.path

  // A walk meets each path once.
  ghost predicate OnePerPath(files: seq<File>) {
    OneEach(PATH, files)
  }

  lemma {:induction false} SamePathSameFile(files: seq<File>, f: File, g: File)
    requires OnePerPath(files) && f in files && g in files && f.path == g.path
    ensures f == g
  {
    var i, j :| 0 <= i < |files| && 0 <= j < |files| && files[i] == f && files[j] == g;
    assert PATH(files[i]) == PATH(files[j]);
  }

  function PathsOf(files: seq<File>): seq<string> {
    seq(|files|, i requires 0 <= i < |files| => files[i].path)
  }

  // The files in the order of their paths.
  ghost predicate SortedFiles(sorted: seq<File>, files: seq<File>) {
    && (forall f :: f in sorted <==> f in files)
    && Increasing(LESS, PathsOf(sorted))
  }

  method SortByPath(files: seq<File>) returns (sorted: seq<File>)
    requires OnePerPath(files)
    ensures SortedFiles(sorted, files) && |sorted| == |files|
  {
    sorted := SortByKey(files, PATH);
    forall i, j | 0 <= i < j < |sorted|
      ensures LESS(PathsOf(sorted)[i], PathsOf(sorted)[j])
    {
      assert ByKey(PATH)(sorted[i], sorted[j]);
    }
  }

  // The order of the walk does not matter: the same files give the same list.
  lemma {:induction false} SortedFilesAreUnique(a: seq<File>, b: seq<File>, files: seq<File>, others: seq<File>)
    requires SortedFiles(a, files) && SortedFiles(b, others) && OnePerPath(files)
    requires forall f :: f in files <==> f in others
    ensures a == b
  {
    forall p
      ensures p in PathsOf(a) <==> p in PathsOf(b)
    {
      if p in PathsOf(a) { SamePath(a, b, p); }
      if p in PathsOf(b) { SamePath(b, a, p); }
    }
    LessIsStrictTotal();
    IncreasingIsUnique(LESS, PathsOf(a), PathsOf(b));
    assert |a| == |PathsOf(a)| == |b|;
    forall i | 0 <= i < |a|
      ensures a[i] == b[i]
    {
      assert PathsOf(a)[i] == a[i].path && PathsOf(b)[i] == b[i].path;
      assert a[i] in files && b[i] in others;
      SamePathSameFile(files, a[i], b[i]);
    }
  }

  lemma {:induction false} SamePath(a: seq<File>, b: seq<File>, p: string)
    requires p in PathsOf(a) && forall f | f in a :: f in b
    ensures p in PathsOf(b)
  {
    var i :| 0 <= i < |a| && PathsOf(a)[i] == p;
    assert a[i] in b;
    var k :| 0 <= k < |b| && b[k] == a[i];
    assert PathsOf(b)[k] == p;
  }

  // The inventory of a tree: refused, or the files in order and the digest of their ASCII JSON.
  method TakeInventory(entries: seq<Entry>, fileLimit: int, byteLimit: int, sum: string -> string)
    returns (result: Option<Summary>, files: seq<File>)
    requires OnePerPath(FilesOf(entries))
    ensures result.Some? <==> forall i | 0 <= i < |entries| :: Fits(entries, i, fileLimit, byteLimit)
    ensures result.Some? ==>
      && SortedFiles(files, FilesOf(entries))
      && result.value == Summary(sum(Ascii(JsonTuples(files))), |FilesOf(entries)|, BytesOf(entries))
  {
    var ok, found, bytes := Walk(entries, fileLimit, byteLimit);
    if !ok { return None, []; }
    files := SortByPath(found);
    var data := WriteAscii(JsonTuples(files));
    result := Some(Summary(sum(data), |files|, bytes));
  }

  // Two trees have the same inventory bytes exactly when they hold the same files: each with its path, its hash, and
  // whether it can be run.
  lemma {:induction false} SameBytesSameFiles(a: seq<File>, b: seq<File>, files: seq<File>, others: seq<File>)
    requires SortedFiles(a, files) && SortedFiles(b, others) && OnePerPath(files) && OnePerPath(others)
    ensures Ascii(JsonTuples(a)) == Ascii(JsonTuples(b)) <==> forall f :: f in files <==> f in others
  {
    SameBytesSameTuples(a, b);
    if forall f :: f in files <==> f in others {
      SortedFilesAreUnique(a, b, files, others);
    }
    if a == b {
      forall f
        ensures f in files <==> f in others
      {
        assert f in a <==> f in files;
        assert f in b <==> f in others;
      }
    }
  }
}
