// internal/appbuild/inventory.go: the ASCII JSON of an inventory, and a reader of it. A Dafny character is a Unicode
// code point that is no surrogate, as in a Go string of valid UTF-8.
module Json {
  import opened Numerals
  import opened Wrappers

  // ---- Hexadecimal ----

  function Digits(a: nat, b: nat, c: nat, d: nat): string
    requires a < 16 && b < 16 && c < 16 && d < 16
  {
    [DigitOf(a), DigitOf(b), DigitOf(c), DigitOf(d)]
  }

  // Four digits, as %04x prints them.
  function Hex4(n: nat): (s: string)
    requires n < 0x10000
    ensures |s| == 4
  {
    Digits(n / 16 / 16 / 16, n / 16 / 16 % 16, n / 16 % 16, n % 16)
  }

  function ReadHex4(s: string): Option<nat> {
    if |s| < 4 || DigitValue(s[0]) < 0 || DigitValue(s[1]) < 0 || DigitValue(s[2]) < 0 || DigitValue(s[3]) < 0 then None
    else Some(DigitValue(s[0]) * 4096 + DigitValue(s[1]) * 256 + DigitValue(s[2]) * 16 + DigitValue(s[3]))
  }

  lemma {:induction false} DigitsReadBack(a: nat, b: nat, c: nat, d: nat, rest: string)
    requires a < 16 && b < 16 && c < 16 && d < 16
    ensures ReadHex4(Digits(a, b, c, d) + rest) == Some(a * 4096 + b * 256 + c * 16 + d)
    ensures forall i | 0 <= i < 4 :: Digits(a, b, c, d)[i] as int < 128
  {
    DigitReadsBack(a);
    DigitReadsBack(b);
    DigitReadsBack(c);
    DigitReadsBack(d);
    var s := Digits(a, b, c, d) + rest;
    assert s[0] == DigitOf(a) && s[1] == DigitOf(b) && s[2] == DigitOf(c) && s[3] == DigitOf(d);
  }

  lemma {:induction false} DigitsOf(n: nat)
    requires n < 0x10000
    ensures n / 16 / 16 / 16 < 16
    ensures n == n / 16 / 16 / 16 * 4096 + n / 16 / 16 % 16 * 256 + n / 16 % 16 * 16 + n % 16
  {
    var a, b := n / 16, n / 16 / 16;
    assert n == 16 * a + n % 16;
    assert a == 16 * b + a % 16;
    assert b == 16 * (b / 16) + b % 16;
  }

  lemma {:induction false} Hex4ReadsBack(n: nat, rest: string)
    requires n < 0x10000
    ensures ReadHex4(Hex4(n) + rest) == Some(n)
    ensures forall i | 0 <= i < 4 :: Hex4(n)[i] as int < 128
  {
    DigitsOf(n);
    DigitsReadBack(n / 16 / 16 / 16, n / 16 / 16 % 16, n / 16 % 16, n % 16, rest);
  }

  // ---- Writing ----

  function Unit(n: nat): string
    requires n < 0x10000
  {
    "\\u" + Hex4(n)
  }

  const QUOTE := 34 as char

  // What the JSON encoder makes of one character, with HTML left alone: control characters, the quote, the backslash,
  // and the two line separators are escaped.
  function JsonChar(c: char): string {
    if c == QUOTE then "\\\""
    else if c == '\\' then "\\\\"
    else if c == '\U{8}' then "\\b"
    else if c == '\U{c}' then "\\f"
    else if c == '\n' then "\\n"
    else if c == '\r' then "\\r"
    else if c == '\t' then "\\t"
    else if c as int < 0x20 || c == '\U{2028}' || c == '\U{2029}' then Unit(c as int)
    else [c]
  }

  // What a character becomes.
  type Writer = char -> string

  function Apply(each: Writer, s: string): string {
    if s == "" then "" else each(s[0]) + Apply(each, s[1..])
  }

  function Quoted(write: Writer, s: string): string {
    "\"" + (Apply(write, s) + "\"")
  }

  datatype File = File(path: string, sha256: string, executable: bool)

  function JsonBool(b: bool): string {
    if b then "true" else "false"
  }

  function Tuple(write: Writer, f: File): string {
    "[" + (Quoted(write, f.path) + ("," + (Quoted(write, f.sha256) + ("," + (JsonBool(f.executable) + "]")))))
  }

  // The tuples after the first, each after a comma, and the closing bracket.
  function Tail(write: Writer, files: seq<File>): string {
    if files == [] then "]" else "," + (Tuple(write, files[0]) + Tail(write, files[1..]))
  }

  function Tuples(write: Writer, files: seq<File>): string {
    if files == [] then "[]" else "[" + (Tuple(write, files[0]) + Tail(write, files[1..]))
  }

  // What the JSON encoder makes of the tuples.
  function JsonTuples(files: seq<File>): string {
    Tuples(c => JsonChar(c), files)
  }

  // The two UTF-16 units of a character beyond the first 65536 (section 2.1 of RFC 2781).
  function High(c: char): nat
    requires c as int >= 0x10000
  {
    0xd800 + (c as int - 0x10000) / 0x400
  }

  function Low(c: char): nat
    requires c as int >= 0x10000
  {
    0xdc00 + (c as int - 0x10000) % 0x400
  }

  function AsciiChar(c: char): string {
    if c as int < 128 then [c]
    else if c as int <= 0xffff then Unit(c as int)
    else Unit(High(c)) + Unit(Low(c))
  }

  function Ascii(s: string): string {
    Apply(c => AsciiChar(c), s)
  }

  // Writes a text again, character by character.
  method WriteEach(data: string, each: Writer) returns (result: string)
    ensures result == Apply(each, data)
  {
    result := "";
    for i := 0 to |data|
      invariant result + Apply(each, data[i..]) == Apply(each, data)
    {
      ApplyStep(each, data, i, result);
      result := result + each(data[i]);
    }
    assert data[|data|..] == "";
  }

  // Writes the JSON text again in ASCII alone.
  method WriteAscii(data: string) returns (result: string)
    ensures result == Ascii(data)
  {
    result := WriteEach(data, c => AsciiChar(c));
  }

  lemma {:induction false} ApplyStep(each: Writer, data: string, i: nat, result: string)
    requires i < |data|
    ensures result + Apply(each, data[i..]) == result + each(data[i]) + Apply(each, data[i + 1..])
  {
    assert data[i..][0] == data[i] && data[i..][1..] == data[i + 1..];
  }

  // ---- Reading (section 7 of RFC 8259) ----

  datatype Read<T> = Read(value: T, rest: string)

  // The character that a number stands for, unless it is a surrogate.
  function CharOf(n: int): Option<char> {
    if 0 <= n < 0xd800 || 0xe000 <= n < 0x110000 then Some(n as char) else None
  }

  // After a backslash and u: one unit, or the two of a pair. Half a pair is no character.
  function ReadUnits(s: string): Option<Read<char>> {
    var unit := ReadHex4(s);
    if unit.None? then None
    else if 0xd800 <= unit.value < 0xdc00 then
      var low := if |s| >= 6 && s[4..6] == "\\u" then ReadHex4(s[6..]) else None;
      if low.None? || !(0xdc00 <= low.value < 0xe000) then None
      else
        var c := CharOf(0x10000 + (unit.value - 0xd800) * 0x400 + (low.value - 0xdc00));
        if c.None? then None else Some(Read(c.value, s[10..]))
    else
      var c := CharOf(unit.value);
      if c.None? then None else Some(Read(c.value, s[4..]))
  }

  // One character of a string, written as itself or as an escape.
  function ReadChar(s: string): Option<Read<char>> {
    if s == "" || s[0] as int < 0x20 || s[0] == QUOTE then None
    else if s[0] != '\\' then Some(Read(s[0], s[1..]))
    else if |s| < 2 then None
    else
      ReadEscape(s[1], s[2..])
  }

  // What a backslash and this character stand for.
  function ReadEscape(c: char, rest: string): Option<Read<char>> {
    if c == QUOTE || c == '\\' || c == '/' then Some(Read(c, rest))
    else
      match c
      case 'b' => Some(Read('\U{8}', rest))
      case 'f' => Some(Read('\U{c}', rest))
      case 'n' => Some(Read('\n', rest))
      case 'r' => Some(Read('\r', rest))
      case 't' => Some(Read('\t', rest))
      case 'u' => ReadUnits(rest)
      case _ => None
  }

  // The characters up to the closing quote.
  function ReadChars(s: string): Option<Read<string>>
    decreases |s|
  {
    if s == "" then None
    else if s[0] == QUOTE then Some(Read("", s[1..]))
    else
      var c := ReadChar(s);
      if c.None? || |c.value.rest| >= |s| then None
      else
        var more := ReadChars(c.value.rest);
        if more.None? then None else Some(Read([c.value.value] + more.value.value, more.value.rest))
  }

  // What follows the expected text.
  function Expect(s: string, text: string): Option<string> {
    if |text| <= |s| && s[..|text|] == text then Some(s[|text|..]) else None
  }

  function ReadString(s: string): Option<Read<string>> {
    var inner := Expect(s, "\"");
    if inner.None? then None else ReadChars(inner.value)
  }

  function ReadBool(s: string): Option<Read<bool>> {
    var yes, no := Expect(s, "true"), Expect(s, "false");
    if yes.Some? then Some(Read(true, yes.value)) else if no.Some? then Some(Read(false, no.value)) else None
  }

  function ReadTuple(s: string): Option<Read<File>> {
    var inner := Expect(s, "[");
    if inner.None? then None
    else
      var path := ReadString(inner.value);
      if path.None? then None
      else
        var comma := Expect(path.value.rest, ",");
        if comma.None? then None
        else
          var hash := ReadString(comma.value);
          if hash.None? then None
          else
            var second := Expect(hash.value.rest, ",");
            if second.None? then None
            else
              var executable := ReadBool(second.value);
              if executable.None? then None
              else
                var closed := Expect(executable.value.rest, "]");
                if closed.None? then None
                else Some(Read(File(path.value.value, hash.value.value, executable.value.value), closed.value))
  }

  function ReadTail(s: string): Option<seq<File>>
    decreases |s|
  {
    if s == "]" then Some([])
    else
      var comma := Expect(s, ",");
      if comma.None? then None
      else
        var f := ReadTuple(comma.value);
        if f.None? || |f.value.rest| >= |s| then None
        else
          var more := ReadTail(f.value.rest);
          if more.None? then None else Some([f.value.value] + more.value)
  }

  function ReadTuples(s: string): Option<seq<File>> {
    if s == "[]" then Some([])
    else
      var inner := Expect(s, "[");
      if inner.None? then None
      else
        var f := ReadTuple(inner.value);
        if f.None? then None
        else
          var more := ReadTail(f.value.rest);
          if more.None? then None else Some([f.value.value] + more.value)
  }

  // ---- Reading undoes writing, whatever the writer makes of a character that the reader reads back ----

  ghost predicate ReadsBack(write: Writer) {
    forall c, rest :: ReadChar(write(c) + rest) == Some(Read(c, rest)) && write(c) != "" && write(c)[0] != QUOTE
  }

  lemma {:induction false} Expected(text: string, rest: string)
    ensures Expect(text + rest, text) == Some(rest)
  {
    assert (text + rest)[..|text|] == text && (text + rest)[|text|..] == rest;
  }

  lemma {:induction false} CharThenChars(w: string, c: char, more: string, str: string, rest: string)
    requires w != "" && w[0] != QUOTE && ReadChar(w + more) == Some(Read(c, more))
    requires ReadChars(more) == Some(Read(str, rest))
    ensures ReadChars(w + more) == Some(Read([c] + str, rest))
  {
  }

  lemma {:induction false} QuoteEnds(rest: string)
    ensures ReadChars("\"" + rest) == Some(Read("", rest))
  {
    assert ("\"" + rest)[1..] == rest;
  }

  lemma {:induction false} ApplyFirst(write: Writer, str: string, rest: string)
    requires str != ""
    ensures Apply(write, str) + rest == write(str[0]) + (Apply(write, str[1..]) + rest)
    ensures [str[0]] + str[1..] == str
  {
  }

  lemma {:induction false} OneReadsBack(write: Writer, c: char, rest: string)
    requires ReadsBack(write)
    ensures ReadChar(write(c) + rest) == Some(Read(c, rest)) && write(c) != "" && write(c)[0] != QUOTE
  {
  }

  lemma {:induction false} NextCharReadsBack(write: Writer, str: string, end: string, rest: string)
    requires ReadsBack(write) && str != ""
    requires ReadChars(Apply(write, str[1..]) + end) == Some(Read(str[1..], rest))
    ensures ReadChars(Apply(write, str) + end) == Some(Read(str, rest))
  {
    var more := Apply(write, str[1..]) + end;
    OneReadsBack(write, str[0], more);
    CharThenChars(write(str[0]), str[0], more, str[1..], rest);
    ApplyFirst(write, str, end);
  }

  lemma {:induction false} CharsReadBack(write: Writer, str: string, rest: string)
    requires ReadsBack(write)
    ensures ReadChars(Apply(write, str) + ("\"" + rest)) == Some(Read(str, rest))
    decreases |str|
  {
    if str == "" {
      QuoteEnds(rest);
      assert Apply(write, str) + ("\"" + rest) == "\"" + rest;
    } else {
      CharsReadBack(write, str[1..], rest);
      NextCharReadsBack(write, str, "\"" + rest, rest);
    }
  }

  lemma {:induction false} StringReadsBack(write: Writer, s: string, rest: string)
    requires ReadsBack(write)
    ensures ReadString(Quoted(write, s) + rest) == Some(Read(s, rest))
  {
    QuotedInside(write, s, rest);
    CharsReadBack(write, s, rest);
    StringOpens(Apply(write, s) + ("\"" + rest));
  }

  lemma {:induction false} QuotedInside(write: Writer, s: string, rest: string)
    ensures Quoted(write, s) + rest == "\"" + (Apply(write, s) + ("\"" + rest))
  {
  }

  lemma {:induction false} StringOpens(inside: string)
    ensures ReadString("\"" + inside) == ReadChars(inside)
  {
    Expected("\"", inside);
  }

  lemma {:induction false} BoolReadsBack(b: bool, rest: string)
    ensures ReadBool(JsonBool(b) + rest) == Some(Read(b, rest))
  {
    Expected(JsonBool(b), rest);
    var s := JsonBool(b) + rest;
    assert !b ==> s[0] == 'f' && s[..4][0] == s[0];
  }

  lemma {:induction false} TupleReadsBack(write: Writer, f: File, rest: string)
    requires ReadsBack(write)
    ensures ReadTuple(Tuple(write, f) + rest) == Some(Read(f, rest))
  {
    var afterFlag := "]" + rest;
    var afterHash := "," + (JsonBool(f.executable) + afterFlag);
    var afterPath := "," + (Quoted(write, f.sha256) + afterHash);
    StringReadsBack(write, f.path, afterPath);
    StringReadsBack(write, f.sha256, afterHash);
    BoolReadsBack(f.executable, afterFlag);
    TupleOpens(f, Quoted(write, f.path), Quoted(write, f.sha256), JsonBool(f.executable), rest);
    TupleInside("[", Quoted(write, f.path), ",", Quoted(write, f.sha256), JsonBool(f.executable), "]", rest);
  }

  lemma {:induction false} TupleInside(open: string, path: string, comma: string, hash: string, flag: string,
          close: string, rest: string)
    ensures open + (path + (comma + (hash + (comma + (flag + close))))) + rest ==
            open + (path + (comma + (hash + (comma + (flag + (close + rest))))))
  {
  }

  // A tuple whose parts are read back is read back.
  lemma {:induction false} TupleOpens(f: File, path: string, hash: string, flag: string, rest: string)
    requires ReadString(path + ("," + (hash + ("," + (flag + ("]" + rest)))))) == Some(Read(f.path, "," + (hash + ("," + (flag + ("]" + rest))))))
    requires ReadString(hash + ("," + (flag + ("]" + rest)))) == Some(Read(f.sha256, "," + (flag + ("]" + rest))))
    requires ReadBool(flag + ("]" + rest)) == Some(Read(f.executable, "]" + rest))
    ensures ReadTuple("[" + (path + ("," + (hash + ("," + (flag + ("]" + rest))))))) == Some(Read(f, rest))
  {
    Expected("[", path + ("," + (hash + ("," + (flag + ("]" + rest))))));
    Expected(",", hash + ("," + (flag + ("]" + rest))));
    Expected(",", flag + ("]" + rest));
    Expected("]", rest);
  }

  lemma {:induction false} NextReadsBack(write: Writer, f: File, rest: string, files: seq<File>)
    requires ReadsBack(write) && ReadTail(rest) == Some(files)
    ensures ReadTail("," + (Tuple(write, f) + rest)) == Some([f] + files)
  {
    var s := "," + (Tuple(write, f) + rest);
    Expected(",", Tuple(write, f) + rest);
    TupleReadsBack(write, f, rest);
    assert s[0] == ',' && |rest| < |s|;
  }

  lemma {:induction false} FirstReadsBack(write: Writer, f: File, rest: string, files: seq<File>)
    requires ReadsBack(write) && ReadTail(rest) == Some(files)
    ensures ReadTuples("[" + (Tuple(write, f) + rest)) == Some([f] + files)
  {
    var s := "[" + (Tuple(write, f) + rest);
    Expected("[", Tuple(write, f) + rest);
    TupleReadsBack(write, f, rest);
    assert s[1] == '[';
  }

  lemma {:induction false} TailReadsBack(write: Writer, files: seq<File>)
    requires ReadsBack(write)
    ensures ReadTail(Tail(write, files)) == Some(files)
  {
    if files != [] {
      TailReadsBack(write, files[1..]);
      NextReadsBack(write, files[0], Tail(write, files[1..]), files[1..]);
      assert files == [files[0]] + files[1..];
    }
  }

  lemma {:induction false} WrittenTuplesReadBack(write: Writer, files: seq<File>)
    requires ReadsBack(write)
    ensures ReadTuples(Tuples(write, files)) == Some(files)
  {
    if files != [] {
      TailReadsBack(write, files[1..]);
      FirstReadsBack(write, files[0], Tail(write, files[1..]), files[1..]);
      assert files == [files[0]] + files[1..];
    }
  }

  // ---- A second writer over what a first one wrote ----

  predicate IsAscii(s: string) {
    forall i | 0 <= i < |s| :: s[i] as int < 128
  }

  ghost predicate KeepsAscii(each: Writer) {
    forall c | c as int < 128 :: each(c) == [c]
  }

  lemma {:induction false} ApplyToSum(each: Writer, a: string, b: string)
    ensures Apply(each, a + b) == Apply(each, a) + Apply(each, b)
  {
    if a == "" {
      assert a + b == b;
    } else {
      assert (a + b)[1..] == a[1..] + b;
      ApplyToSum(each, a[1..], b);
    }
  }

  lemma {:induction false} AsciiIsKept(each: Writer, s: string)
    requires KeepsAscii(each) && IsAscii(s)
    ensures Apply(each, s) == s
  {
    if s != "" {
      AsciiIsKept(each, s[1..]);
      assert s == [s[0]] + s[1..];
    }
  }

  // A mark of ASCII in front stays as it is.
  lemma {:induction false} ApplyAfter(each: Writer, text: string, rest: string)
    requires KeepsAscii(each) && IsAscii(text)
    ensures Apply(each, text + rest) == text + Apply(each, rest)
  {
    ApplyToSum(each, text, rest);
    AsciiIsKept(each, text);
  }

  // Both writers, one after the other.
  ghost predicate Both(each: Writer, write: Writer, both: Writer) {
    KeepsAscii(each) && forall c :: both(c) == Apply(each, write(c))
  }

  lemma {:induction false} ApplyToChars(each: Writer, write: Writer, both: Writer, s: string)
    requires Both(each, write, both)
    ensures Apply(each, Apply(write, s)) == Apply(both, s)
  {
    if s != "" {
      ApplyToSum(each, write(s[0]), Apply(write, s[1..]));
      ApplyToChars(each, write, both, s[1..]);
    }
  }

  lemma {:induction false} ApplyToQuoted(each: Writer, write: Writer, both: Writer, s: string, rest: string)
    requires Both(each, write, both)
    ensures Apply(each, Quoted(write, s) + rest) == Quoted(both, s) + Apply(each, rest)
  {
    assert Quoted(write, s) + rest == "\"" + (Apply(write, s) + ("\"" + rest));
    ApplyAfter(each, "\"", Apply(write, s) + ("\"" + rest));
    ApplyToSum(each, Apply(write, s), "\"" + rest);
    ApplyToChars(each, write, both, s);
    ApplyAfter(each, "\"", rest);
  }

  lemma {:induction false} BoolIsAscii(b: bool)
    ensures IsAscii(JsonBool(b) + "]")
  {
  }

  lemma {:induction false} TupleParts(write: Writer, f: File, rest: string)
    ensures Tuple(write, f) + rest ==
      "[" + (Quoted(write, f.path) + ("," + (Quoted(write, f.sha256) + ("," + ((JsonBool(f.executable) + "]") + rest)))))
  {
  }

  lemma {:induction false} ApplyToFlag(each: Writer, flag: string, rest: string)
    requires KeepsAscii(each) && IsAscii(flag)
    ensures Apply(each, "," + (flag + rest)) == "," + (flag + Apply(each, rest))
  {
    ApplyAfter(each, ",", flag + rest);
    ApplyAfter(each, flag, rest);
  }

  lemma {:induction false} ApplyToTuple(each: Writer, write: Writer, both: Writer, f: File, rest: string)
    requires Both(each, write, both)
    ensures Apply(each, Tuple(write, f) + rest) == Tuple(both, f) + Apply(each, rest)
  {
    var flag := JsonBool(f.executable) + "]";
    var end := "," + (flag + rest);
    var hash := "," + (Quoted(write, f.sha256) + end);
    TupleParts(write, f, rest);
    TupleParts(both, f, Apply(each, rest));
    BoolIsAscii(f.executable);
    ApplyAfter(each, "[", Quoted(write, f.path) + hash);
    ApplyToQuoted(each, write, both, f.path, hash);
    ApplyAfter(each, ",", Quoted(write, f.sha256) + end);
    ApplyToQuoted(each, write, both, f.sha256, end);
    ApplyToFlag(each, flag, rest);
  }

  lemma {:induction false} ApplyToTail(each: Writer, write: Writer, both: Writer, files: seq<File>)
    requires Both(each, write, both)
    ensures Apply(each, Tail(write, files)) == Tail(both, files)
  {
    if files == [] {
      AsciiIsKept(each, "]");
    } else {
      ApplyAfter(each, ",", Tuple(write, files[0]) + Tail(write, files[1..]));
      ApplyToTuple(each, write, both, files[0], Tail(write, files[1..]));
      ApplyToTail(each, write, both, files[1..]);
    }
  }

  lemma {:induction false} ApplyToTuples(each: Writer, write: Writer, both: Writer, files: seq<File>)
    requires Both(each, write, both)
    ensures Apply(each, Tuples(write, files)) == Tuples(both, files)
  {
    if files == [] {
      AsciiIsKept(each, "[]");
    } else {
      ApplyAfter(each, "[", Tuple(write, files[0]) + Tail(write, files[1..]));
      ApplyToTuple(each, write, both, files[0], Tail(write, files[1..]));
      ApplyToTail(each, write, both, files[1..]);
    }
  }

  // ---- The characters of the inventory ----

  // A character in both steps.
  function Written(c: char): string {
    Ascii(JsonChar(c))
  }

  lemma {:induction false} UnitIsAscii(n: nat)
    requires n < 0x10000
    ensures IsAscii(Unit(n))
  {
    Hex4ReadsBack(n, "");
  }

  lemma {:induction false} AsciiCharIsAscii(c: char)
    ensures IsAscii(AsciiChar(c))
  {
    if 128 <= c as int <= 0xffff { UnitIsAscii(c as int); }
    if c as int > 0xffff {
      UnitIsAscii(High(c));
      UnitIsAscii(Low(c));
    }
  }

  lemma {:induction false} ApplyIsAscii(each: Writer, s: string)
    requires forall c :: IsAscii(each(c))
    ensures IsAscii(Apply(each, s))
  {
    if s != "" {
      ApplyIsAscii(each, s[1..]);
      assert IsAscii(each(s[0]));
    }
  }

  // Nothing but ASCII is written.
  lemma {:induction false} AsciiIsAscii(s: string)
    ensures IsAscii(Ascii(s))
  {
    forall c
      ensures IsAscii(AsciiChar(c))
    {
      AsciiCharIsAscii(c);
    }
    ApplyIsAscii(c => AsciiChar(c), s);
  }

  lemma {:induction false} UnitReads(h: string, n: nat, rest: string)
    requires |h| == 4 && ReadHex4(h + rest) == Some(n) && CharOf(n).Some?
    ensures ReadChar("\\u" + h + rest) == Some(Read(CharOf(n).value, rest))
  {
    var s := "\\u" + h + rest;
    assert s[2..] == h + rest;
    assert s[2..][4..] == rest;
  }

  lemma {:induction false} PairReads(h: string, l: string, high: nat, low: nat, rest: string)
    requires |h| == 4 && |l| == 4 && 0xd800 <= high < 0xdc00 <= low < 0xe000
    requires ReadHex4(h + ("\\u" + l + rest)) == Some(high) && ReadHex4(l + rest) == Some(low)
    ensures CharOf(0x10000 + (high - 0xd800) * 0x400 + (low - 0xdc00)).Some?
    ensures ReadChar("\\u" + h + ("\\u" + l + rest)) ==
            Some(Read(CharOf(0x10000 + (high - 0xd800) * 0x400 + (low - 0xdc00)).value, rest))
  {
    var s := "\\u" + h + ("\\u" + l + rest);
    assert s[2..] == h + ("\\u" + l + rest);
    var t := s[2..];
    assert t[4..6] == "\\u" && t[6..] == l + rest && t[10..] == rest;
  }

  lemma {:induction false} OneUnitReadsBack(c: char, rest: string)
    requires c as int <= 0xffff
    ensures ReadChar(Unit(c as int) + rest) == Some(Read(c, rest))
  {
    Hex4ReadsBack(c as int, rest);
    UnitReads(Hex4(c as int), c as int, rest);
  }

  lemma {:induction false} PairIsCharacter(c: char)
    requires c as int > 0xffff
    ensures 0xd800 <= High(c) < 0xdc00 <= Low(c) < 0xe000
    ensures CharOf(0x10000 + (High(c) - 0xd800) * 0x400 + (Low(c) - 0xdc00)) == Some(c)
  {
  }

  lemma {:induction false} PairReadsBack(c: char, rest: string)
    requires c as int > 0xffff
    ensures ReadChar(Unit(High(c)) + Unit(Low(c)) + rest) == Some(Read(c, rest))
  {
    PairIsCharacter(c);
    Hex4ReadsBack(High(c), Unit(Low(c)) + rest);
    Hex4ReadsBack(Low(c), rest);
    PairReads(Hex4(High(c)), Hex4(Low(c)), High(c), Low(c), rest);
    assert Unit(High(c)) + Unit(Low(c)) + rest == "\\u" + Hex4(High(c)) + ("\\u" + Hex4(Low(c)) + rest);
  }

  // The characters that the JSON encoder writes as one unit.
  predicate JsonUnit(c: char) {
    (c as int < 0x20 && c !in "\U{8}\U{c}\n\r\t") || c == '\U{2028}' || c == '\U{2029}'
  }

  lemma {:induction false} JsonCharIsAscii(c: char)
    requires c as int < 128 || JsonUnit(c)
    ensures IsAscii(JsonChar(c))
  {
    if JsonUnit(c) { UnitIsAscii(c as int); }
  }

  lemma {:induction false} AsciiOfOne(each: Writer, c: char)
    ensures Apply(each, [c]) == each(c)
  {
    assert [c][1..] == "" && Apply(each, "") == "";
  }

  // The second step changes the characters that the first one left, beyond ASCII, and nothing else.
  lemma {:induction false} WrittenOnce(c: char)
    requires c as int < 128 || JsonUnit(c)
    ensures Written(c) == JsonChar(c)
  {
    JsonCharIsAscii(c);
    AsciiIsKept(c => AsciiChar(c), JsonChar(c));
  }

  lemma {:induction false} WrittenTwice(c: char)
    requires c as int >= 128 && !JsonUnit(c)
    ensures Written(c) == AsciiChar(c)
  {
    assert JsonChar(c) == [c];
    AsciiOfOne(c => AsciiChar(c), c);
  }

  lemma {:induction false} JsonCharReadsBack(c: char, rest: string)
    requires c as int < 128 || JsonUnit(c)
    ensures ReadChar(JsonChar(c) + rest) == Some(Read(c, rest))
    ensures JsonChar(c) != "" && JsonChar(c)[0] != QUOTE
  {
    if JsonUnit(c) {
      OneUnitReadsBack(c, rest);
    } else {
      var s := JsonChar(c) + rest;
      assert s[|JsonChar(c)|..] == rest;
    }
  }

  lemma {:induction false} AsciiCharReadsBack(c: char, rest: string)
    requires c as int >= 128
    ensures ReadChar(AsciiChar(c) + rest) == Some(Read(c, rest))
    ensures AsciiChar(c) != "" && AsciiChar(c)[0] != QUOTE
  {
    if c as int > 0xffff { PairReadsBack(c, rest); } else { OneUnitReadsBack(c, rest); }
  }

  lemma {:induction false} CharReadsBack(c: char, rest: string)
    ensures ReadChar(Written(c) + rest) == Some(Read(c, rest))
    ensures Written(c) != "" && Written(c)[0] != QUOTE
  {
    if c as int < 128 || JsonUnit(c) {
      WrittenOnce(c);
      JsonCharReadsBack(c, rest);
    } else {
      WrittenTwice(c);
      AsciiCharReadsBack(c, rest);
    }
  }

  lemma {:induction false} AsciiOfTuples(files: seq<File>, both: Writer)
    requires forall c :: both(c) == Written(c)
    ensures Ascii(JsonTuples(files)) == Tuples(both, files)
  {
    ApplyToTuples(c => AsciiChar(c), c => JsonChar(c), both, files);
  }

  // Reading the ASCII JSON gives the very tuples that were written.
  lemma {:induction false} TuplesReadBack(files: seq<File>)
    ensures ReadTuples(Ascii(JsonTuples(files))) == Some(files)
  {
    var both: Writer := c => Written(c);
    forall c, rest
      ensures ReadChar(both(c) + rest) == Some(Read(c, rest)) && both(c) != "" && both(c)[0] != QUOTE
    {
      CharReadsBack(c, rest);
    }
    assert ReadsBack(both);
    AsciiOfTuples(files, both);
    WrittenTuplesReadBack(both, files);
  }

  // So no two lists of tuples have the same bytes.
  lemma {:induction false} SameBytesSameTuples(a: seq<File>, b: seq<File>)
    ensures Ascii(JsonTuples(a)) == Ascii(JsonTuples(b)) <==> a == b
  {
    TuplesReadBack(a);
    TuplesReadBack(b);
  }
}
