/** What `mk` writes: the ignore entries, the manifest with its optional target
    section, and the stub source files. */
module Manifest {
  import opened Common
  import opened SourceSurvey

  /** The two entries `mk` appends to the ignore file. */
  const IgnoreEntries: string := "target\nCargo.lock\n"

  /** The ignore file of each kind; no VCS has none. */
  function IgnoreFile(vcs: VersionControl): Option<string> {
    match vcs
    case Git => Some(".gitignore")
    case Hg => Some(".hgignore")
    case NoVcs => None
  }

  /** Where a new source file goes when none was found. */
  function DefaultSourcePath(bin: bool): string {
    if bin then "src/main.rs" else "src/lib.rs"
  }

  /** The escape a TOML basic string uses for `c`. */
  function EscapeChar(c: char): string {
    if c == '\U{8}' then "\\b"
    else if c == '\t' then "\\t"
    else if c == '\n' then "\\n"
    else if c == '\U{C}' then "\\f"
    else if c == '\r' then "\\r"
    else if c == '"' then "\\\""
    else if c == '\\' then "\\\\"
    else [c]
  }

  function Escape(s: string): string {
    if s == [] then "" else EscapeChar(s[0]) + Escape(s[1..])
  }

  /** `toml::Value::String(s)` as it is printed: a quoted, escaped string. */
  function TomlString(s: string): string {
    "\"" + Escape(s) + "\""
  }

  /** The character an escape sequence `\x` stands for. */
  function Unescaped(x: char): Option<char> {
    if x == 'b' then Some('\U{8}')
    else if x == 't' then Some('\t')
    else if x == 'n' then Some('\n')
    else if x == 'f' then Some('\U{C}')
    else if x == 'r' then Some('\r')
    else if x == '"' then Some('"')
    else if x == '\\' then Some('\\')
    else None
  }

  /** Reading back the inside of a TOML basic string. */
  function Unescape(t: string): Option<string> {
    if t == [] then Some("")
    else if t[0] == '"' then None
    else if t[0] != '\\' then
      match Unescape(t[1..])
      case Some(rest) => Some([t[0]] + rest)
      case None => None
    else if |t| < 2 then None
    else
      match (Unescaped(t[1]), Unescape(t[2..]))
      case (Some(c), Some(rest)) => Some([c] + rest)
      case _ => None
  }

  /** Each character is either kept as it is (never a quote or a backslash) or
      becomes a backslash followed by a letter that reads back as it. */
  lemma EscapeCharShape(c: char)
    ensures var e := EscapeChar(c);
      || (e == [c] && c != '"' && c != '\\')
      || (|e| == 2 && e[0] == '\\' && Unescaped(e[1]) == Some(c))
  {
  }

  lemma UnescapeEscapedChar(c: char, rest: string, r: string)
    requires Unescape(rest) == Some(r)
    ensures Unescape(EscapeChar(c) + rest) == Some([c] + r)
  {
    var e := EscapeChar(c);
    EscapeCharShape(c);
    var t := e + rest;
    if |e| == 1 {
      assert t[0] == c && t[1..] == rest;
    } else {
      assert t[0] == '\\' && t[1] == e[1] && t[2..] == rest;
    }
  }

  /** What `mk` quotes into the manifest can be read back unchanged. */
  lemma {:induction false} EscapeRoundTrip(s: string)
    ensures Unescape(Escape(s)) == Some(s)
  {
    if s != [] {
      EscapeRoundTrip(s[1..]);
      UnescapeEscapedChar(s[0], Escape(s[1..]), s[1..]);
      assert s == [s[0]] + s[1..];
    }
  }

  /** The lines of a target section up to the opening quote of its path. */
  function TargetHead(bin: bool, name: string): string {
    "\n" + (if bin then "[[bin]]" else "[lib]") + "\nname = \"" + name + "\"\npath = \""
  }

  /** The target section that pins a non-default source path: the section header
      and name, then the path as a TOML string that reads back as `path`. */
  function TargetSection(bin: bool, name: string, path: string): (t: string)
    ensures QuotedAfter(t, TargetHead(bin, name), path)
    ensures var h := TargetHead(bin, name);
      var e := |Escape(path)|;
      && |t| == |h| + e + 2
      && t[|h| + e..] == "\"\n"
  {
    var t := TargetHead(bin, name) + Escape(path) + "\"\n";
    EscapeRoundTrip(path);
    Pieces(TargetHead(bin, name), Escape(path), "\"\n", "");
    t
  }

  datatype SourceTarget = SourceTarget(path: string, specifier: string)

  /** The source file `mk` makes sure of and the manifest text that points at it:
      no specifier for the default path (or when none was found), a `[[bin]]` or
      `[lib]` section otherwise. */
  function SourceTargetOf(source: Option<string>, bin: bool, name: string): (t: SourceTarget)
    ensures t.path == source.GetOr(DefaultSourcePath(bin))
    ensures t.specifier == "" <==> source.None? || source.value == DefaultSourcePath(bin)
    ensures t.specifier != "" ==> t.specifier == TargetSection(bin, name, source.value)
  {
    match source
    case None =>
      if bin then SourceTarget("src/main.rs", "") else SourceTarget("src/lib.rs", "")
    case Some(srcRelPath) =>
      var specifier :=
        if bin then
          if srcRelPath == "src/main.rs" then "" else TargetSection(true, name, srcRelPath)
        else
          if srcRelPath == "src/lib.rs" then "" else TargetSection(false, name, srcRelPath);
      SourceTarget(srcRelPath, specifier)
  }

  /** The start of every manifest: the package section at version 0.1.0. */
  function PackageHead(name: string): string {
    "[package]\nname = \"" + name + "\"\nversion = \"0.1.0\"\n"
  }

  /** `m` starts with `head`, and the quoted string right after it reads back as `value`. */
  predicate QuotedAfter(m: string, head: string, value: string) {
    var e := |Escape(value)|;
    && |head| + e <= |m|
    && m[..|head|] == head
    && Unescape(m[|head|..|head| + e]) == Some(value)
  }

  /** The manifest up to the opening quote of the author: the package section
      and the start of the authors list. */
  function AuthorsHead(name: string): (h: string)
    ensures |PackageHead(name)| <= |h| && h[..|PackageHead(name)|] == PackageHead(name)
  {
    PackageHead(name) + "authors = [\""
  }

  /** The manifest `mk` writes: the package section, the author as a TOML string
      that reads back as `author`, then the specifier. */
  function ManifestText(name: string, author: string, specifier: string): (m: string)
    ensures QuotedAfter(m, AuthorsHead(name), author)
    ensures var h := AuthorsHead(name);
      var e := |Escape(author)|;
      && |m| == |h| + e + 3 + |specifier|
      && m[|h| + e..|h| + e + 3] == "\"]\n"
      && m[|h| + e + 3..] == specifier
  {
    var h := AuthorsHead(name);
    var q := Escape(author);
    var m := h + q + "\"]\n" + specifier;
    Pieces(h, q, "\"]\n", specifier);
    EscapeRoundTrip(author);
    assert Unescape(m[|h|..|h| + |q|]) == Some(author);
    m
  }

  /** Every manifest starts with the package section. */
  lemma ManifestStartsWithPackage(name: string, author: string, specifier: string)
    ensures var m := ManifestText(name, author, specifier);
      |PackageHead(name)| <= |m| && m[..|PackageHead(name)|] == PackageHead(name)
  {
    var m := ManifestText(name, author, specifier);
    var h := AuthorsHead(name);
    assert m[..|PackageHead(name)|] == m[..|h|][..|PackageHead(name)|];
  }

  /** Cutting `a + b + c + d` back into its four pieces. */
  lemma Pieces(a: string, b: string, c: string, d: string)
    ensures var m := a + b + c + d;
      && |m| == |a| + |b| + |c| + |d|
      && m[..|a|] == a
      && m[|a|..|a| + |b|] == b
      && m[|a| + |b|..|a| + |b| + |c|] == c
      && m[|a| + |b| + |c|..] == d
  {
  }

  const BinStub: string := "fn main() {\n    println!(\"Hello, world!\");\n}\n"
  const LibStub: string := "#[test]\nfn it_works() {\n}\n"

  /** The stub source file: `init`'s autodetection reads it back as the kind it
      was written for. */
  function Stub(bin: bool): (s: string)
    ensures AutodetectBinFile(s) == bin
  {
    if bin then
      assert BinStub == EntryMarker + BinStub[|EntryMarker|..];
      assert OccursAt(BinStub, EntryMarker, 0);
      BinStub
    else
      LibStubUnmarked();
      LibStub
  }

  /** `fn main` occurs nowhere in the library stub: its only `f` starts `fn it_works`. */
  lemma LibStubUnmarked()
    ensures forall i :: !OccursAt(LibStub, EntryMarker, i)
  {
    forall i | OccursAt(LibStub, EntryMarker, i)
      ensures false
    {
      var w := LibStub[i..i + |EntryMarker|];
      assert w[0] == 'f' && w[3] == 'm';
      NoMainLetters(i);
    }
  }

  /** No `f` of the library stub has an `m` three characters later. */
  lemma NoMainLetters(i: int)
    requires 0 <= i && i + 3 < |LibStub|
    ensures !(LibStub[i] == 'f' && LibStub[i + 3] == 'm')
  {
  }
}
