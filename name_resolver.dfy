/** Deriving and validating the package name: `check_name`, `strip_rust_affixes`
    and `get_name` of src/cargo/ops/cargo_new.rs. */
module NameResolver {
  import opened Common

  /** `char::is_alphanumeric`, approximated by the ASCII letters and digits. */
  predicate IsAlphanumeric(c: char) {
    'a' <= c <= 'z' || 'A' <= c <= 'Z' || '0' <= c <= '9'
  }

  /** A character `check_name` lets through. */
  predicate IsNameChar(c: char) {
    IsAlphanumeric(c) || c == '_' || c == '-'
  }

  /** The index of the first character of `name` that is not allowed, or `|name|`. */
  function FirstInvalid(name: string): (k: nat)
    ensures k <= |name|
    ensures forall j | 0 <= j < k :: IsNameChar(name[j])
    ensures k < |name| ==> !IsNameChar(name[k])
  {
    if name == [] || !IsNameChar(name[0]) then 0
    else 1 + FirstInvalid(name[1..])
  }

  /** What `check_name` decides: accept a name made only of allowed characters
      (the empty name included), otherwise report the first offending character. */
  function NameCheck(name: string): (r: Result<()>)
    ensures r.Ok? <==> forall i | 0 <= i < |name| :: IsNameChar(name[i])
    ensures r.Err? ==> exists k | 0 <= k < |name| ::
      && r.error == InvalidCharacter(name[k], name)
      && !IsNameChar(name[k])
      && forall j | 0 <= j < k :: IsNameChar(name[j])
  {
    var k := FirstInvalid(name);
    if k == |name| then Ok(()) else Err(InvalidCharacter(name[k], name))
  }

  /** `check_name`: a scan over the characters that stops at the first bad one. */
  method CheckName(name: string) returns (r: Result<()>)
    ensures r == NameCheck(name)
  {
    for i := 0 to |name|
      invariant forall j | 0 <= j < i :: IsNameChar(name[j])
    {
      var c := name[i];
      if IsAlphanumeric(c) {
        continue;
      }
      if c == '_' || c == '-' {
        continue;
      }
      return Err(InvalidCharacter(c, name));
    }
    return Ok(());
  }

  const RustPrefixes: seq<string> := ["rust-", "rust_", "rs-", "rs_"]
  const RustSuffixes: seq<string> := ["-rust", "_rust", "-rs", "_rs"]

  predicate IsSuffix(suffix: string, s: string) {
    |suffix| <= |s| && s[|s| - |suffix|..] == suffix
  }

  /** `name` without the first prefix of `prefixes` it starts with, if any. */
  function StripFirstPrefix(name: string, prefixes: seq<string>): (r: Option<string>)
    ensures r.Some? ==> |r.value| <= |name| && r.value == name[|name| - |r.value|..]
  {
    if prefixes == [] then None
    else if prefixes[0] <= name then Some(name[|prefixes[0]|..])
    else StripFirstPrefix(name, prefixes[1..])
  }

  /** `name` without the first suffix of `suffixes` it ends with, if any. */
  function StripFirstSuffix(name: string, suffixes: seq<string>): (r: Option<string>)
    ensures r.Some? ==> |r.value| <= |name| && r.value == name[..|r.value|]
  {
    if suffixes == [] then None
    else if IsSuffix(suffixes[0], name) then Some(name[..|name| - |suffixes[0]|])
    else StripFirstSuffix(name, suffixes[1..])
  }

  /** `strip_rust_affixes`: prefixes are tried before suffixes and only the first
      affix that matches is removed. */
  function StripRustAffixes(name: string): (r: string)
    ensures |r| <= |name|
    ensures r == name[..|r|] || r == name[|name| - |r|..]
  {
    match StripFirstPrefix(name, RustPrefixes)
    case Some(rest) => rest
    case None =>
      match StripFirstSuffix(name, RustSuffixes)
      case Some(rest) => rest
      case None => name
  }

  lemma {:induction false} FirstPrefixStripped(name: string, prefixes: seq<string>, i: nat)
    requires i < |prefixes| && prefixes[i] <= name
    requires forall j | 0 <= j < i :: !(prefixes[j] <= name)
    ensures StripFirstPrefix(name, prefixes) == Some(name[|prefixes[i]|..])
  {
    if i > 0 {
      FirstPrefixStripped(name, prefixes[1..], i - 1);
    }
  }

  lemma {:induction false} NoPrefixStripped(name: string, prefixes: seq<string>)
    requires forall j | 0 <= j < |prefixes| :: !(prefixes[j] <= name)
    ensures StripFirstPrefix(name, prefixes) == None
  {
    if prefixes != [] {
      NoPrefixStripped(name, prefixes[1..]);
    }
  }

  lemma {:induction false} FirstSuffixStripped(name: string, suffixes: seq<string>, i: nat)
    requires i < |suffixes| && IsSuffix(suffixes[i], name)
    requires forall j | 0 <= j < i :: !IsSuffix(suffixes[j], name)
    ensures StripFirstSuffix(name, suffixes) == Some(name[..|name| - |suffixes[i]|])
  {
    if i > 0 {
      FirstSuffixStripped(name, suffixes[1..], i - 1);
    }
  }

  lemma {:induction false} NoSuffixStripped(name: string, suffixes: seq<string>)
    requires forall j | 0 <= j < |suffixes| :: !IsSuffix(suffixes[j], name)
    ensures StripFirstSuffix(name, suffixes) == None
  {
    if suffixes != [] {
      NoSuffixStripped(name, suffixes[1..]);
    }
  }

  /** A name that starts with one of `rust-`, `rust_`, `rs-`, `rs_` loses the first
      of them (in that order) and nothing else. */
  lemma StripsFirstRustPrefix(name: string, i: nat)
    requires i < |RustPrefixes| && RustPrefixes[i] <= name
    requires forall j | 0 <= j < i :: !(RustPrefixes[j] <= name)
    ensures StripRustAffixes(name) == name[|RustPrefixes[i]|..]
  {
    FirstPrefixStripped(name, RustPrefixes, i);
  }

  /** Only when no prefix matches is a suffix `-rust`, `_rust`, `-rs`, `_rs` removed,
      again the first in that order. */
  lemma StripsFirstRustSuffix(name: string, i: nat)
    requires forall j | 0 <= j < |RustPrefixes| :: !(RustPrefixes[j] <= name)
    requires i < |RustSuffixes| && IsSuffix(RustSuffixes[i], name)
    requires forall j | 0 <= j < i :: !IsSuffix(RustSuffixes[j], name)
    ensures StripRustAffixes(name) == name[..|name| - |RustSuffixes[i]|]
  {
    NoPrefixStripped(name, RustPrefixes);
    FirstSuffixStripped(name, RustSuffixes, i);
  }

  lemma {:induction false} PrefixStrippedIffSomeMatches(name: string, prefixes: seq<string>)
    ensures StripFirstPrefix(name, prefixes).None? <==> forall j | 0 <= j < |prefixes| :: !(prefixes[j] <= name)
    ensures StripFirstPrefix(name, prefixes).Some? ==>
      exists j | 0 <= j < |prefixes| :: name == prefixes[j] + StripFirstPrefix(name, prefixes).value
  {
    if prefixes != [] && !(prefixes[0] <= name) {
      PrefixStrippedIffSomeMatches(name, prefixes[1..]);
      var r := StripFirstPrefix(name, prefixes);
      if r.Some? {
        var j :| 0 <= j < |prefixes[1..]| && name == prefixes[1..][j] + r.value;
        assert name == prefixes[j + 1] + r.value;
      }
    } else if prefixes != [] {
      assert name == prefixes[0] + name[|prefixes[0]|..];
    }
  }

  lemma {:induction false} SuffixStrippedIffSomeMatches(name: string, suffixes: seq<string>)
    ensures StripFirstSuffix(name, suffixes).None? <==> forall j | 0 <= j < |suffixes| :: !IsSuffix(suffixes[j], name)
    ensures StripFirstSuffix(name, suffixes).Some? ==>
      exists j | 0 <= j < |suffixes| :: name == StripFirstSuffix(name, suffixes).value + suffixes[j]
  {
    if suffixes != [] && !IsSuffix(suffixes[0], name) {
      SuffixStrippedIffSomeMatches(name, suffixes[1..]);
      var r := StripFirstSuffix(name, suffixes);
      if r.Some? {
        var j :| 0 <= j < |suffixes[1..]| && name == r.value + suffixes[1..][j];
        assert name == r.value + suffixes[j + 1];
      }
    } else if suffixes != [] {
      assert name == name[..|name| - |suffixes[0]|] + suffixes[0];
    }
  }

  /** The name comes back unchanged exactly when no affix matches. */
  lemma StripKeepsNameIffNoAffix(name: string)
    ensures StripRustAffixes(name) == name <==>
      (forall j | 0 <= j < |RustPrefixes| :: !(RustPrefixes[j] <= name)) &&
      (forall j | 0 <= j < |RustSuffixes| :: !IsSuffix(RustSuffixes[j], name))
  {
    PrefixStrippedIffSomeMatches(name, RustPrefixes);
    SuffixStrippedIffSomeMatches(name, RustSuffixes);
    var r := StripRustAffixes(name);
    if StripFirstPrefix(name, RustPrefixes).Some? {
      var j :| 0 <= j < |RustPrefixes| && name == RustPrefixes[j] + r;
      assert |r| < |name|;
    } else if StripFirstSuffix(name, RustSuffixes).Some? {
      var j :| 0 <= j < |RustSuffixes| && name == r + RustSuffixes[j];
      assert |r| < |name|;
    }
  }

  /** At most one affix is removed: the result is the name itself, or the name
      with exactly one of the listed prefixes or suffixes taken off. */
  lemma StripRemovesAtMostOneAffix(name: string)
    ensures var r := StripRustAffixes(name);
      || r == name
      || (exists p | p in RustPrefixes :: name == p + r)
      || (exists s | s in RustSuffixes :: name == r + s)
  {
    PrefixStrippedIffSomeMatches(name, RustPrefixes);
    SuffixStrippedIffSomeMatches(name, RustSuffixes);
    var r := StripRustAffixes(name);
    if StripFirstPrefix(name, RustPrefixes).Some? {
      var j :| 0 <= j < |RustPrefixes| && name == RustPrefixes[j] + r;
      assert RustPrefixes[j] in RustPrefixes;
    } else if StripFirstSuffix(name, RustSuffixes).Some? {
      var j :| 0 <= j < |RustSuffixes| && name == r + RustSuffixes[j];
      assert RustSuffixes[j] in RustSuffixes;
    }
  }

  lemma NotSuffixAt(x: string, s: string, k: nat)
    requires k < |x| && k < |s| && x[|x| - 1 - k] != s[|s| - 1 - k]
    ensures !IsSuffix(x, s)
  {
  }

  lemma NotPrefixAt(p: string, s: string, k: nat)
    requires k < |p| && k < |s| && p[k] != s[k]
    ensures !(p <= s)
  {
  }

  /** The prefix cases of the `affixes_stripped` unit test. */
  lemma StripExamplesPrefix()
    ensures StripRustAffixes("rust-foo") == "foo"
    ensures StripRustAffixes("rs_foo") == "foo"
    ensures StripRustAffixes("rs-foo-rs") == "foo-rs"
  {
    StripsFirstRustPrefix("rust-foo", 0);
    StripRsUnderscoreFoo();
    StripRsFooRs();
  }

  lemma StripRsUnderscoreFoo()
    ensures StripRustAffixes("rs_foo") == "foo"
  {
    NotPrefixAt("rust-", "rs_foo", 1);
    NotPrefixAt("rust_", "rs_foo", 1);
    NotPrefixAt("rs-", "rs_foo", 2);
    StripsFirstRustPrefix("rs_foo", 3);
  }

  lemma StripRsFooRs()
    ensures StripRustAffixes("rs-foo-rs") == "foo-rs"
  {
    NotPrefixAt("rust-", "rs-foo-rs", 1);
    NotPrefixAt("rust_", "rs-foo-rs", 1);
    StripsFirstRustPrefix("rs-foo-rs", 2);
  }

  /** A name that starts with none of the prefixes: `f` is not the first letter of any. */
  lemma NoRustPrefixOnF(name: string)
    requires name != [] && name[0] == 'f'
    ensures forall j | 0 <= j < |RustPrefixes| :: !(RustPrefixes[j] <= name)
  {
    forall j | 0 <= j < |RustPrefixes| ensures !(RustPrefixes[j] <= name) {
      NotPrefixAt(RustPrefixes[j], name, 0);
    }
  }

  /** A name ending in `s` loses `-rs` exactly when no prefix matches and it ends in `-rs`. */
  lemma StripDashRs(name: string)
    requires name != [] && name[0] == 'f'
    requires |name| >= 3 && name[|name| - 3..] == "-rs"
    ensures StripRustAffixes(name) == name[..|name| - 3]
  {
    NoRustPrefixOnF(name);
    NotSuffixAt("-rust", name, 0);
    NotSuffixAt("_rust", name, 0);
    StripsFirstRustSuffix(name, 2);
  }

  /** The suffix cases of the `affixes_stripped` unit test: only one suffix goes. */
  lemma StripExamplesSuffix()
    ensures StripRustAffixes("foo-rs") == "foo"
    ensures StripRustAffixes("foo-rs-rs") == "foo-rs"
  {
    StripDashRs("foo-rs");
    StripDashRs("foo-rs-rs");
  }

  /** The middle of a name is never touched: `some-rust-crate` stays as it is. */
  lemma StripExampleMiddleUntouched()
    ensures StripRustAffixes("some-rust-crate") == "some-rust-crate"
  {
    var name := "some-rust-crate";
    forall j | 0 <= j < |RustPrefixes| ensures !(RustPrefixes[j] <= name) {
      NotPrefixAt(RustPrefixes[j], name, 0);
    }
    forall j | 0 <= j < |RustSuffixes| ensures !IsSuffix(RustSuffixes[j], name) {
      NotSuffixAt(RustSuffixes[j], name, 0);
    }
    NoPrefixStripped(name, RustPrefixes);
    NoSuffixStripped(name, RustSuffixes);
  }

  /** Removing only one affix makes stripping not idempotent. */
  lemma StripNotIdempotent()
    ensures StripRustAffixes(StripRustAffixes("rs-foo-rs")) != StripRustAffixes("rs-foo-rs")
  {
    StripExamplesPrefix();
    StripExamplesSuffix();
  }

  /** The final component of the project path, as `get_name` finds it. */
  datatype FileName =
    | NoFileName              // `path.file_name()` is `None` (e.g. `/`, `foo/..`)
    | NonUnicode              // the component is not valid text
    | Component(text: string)

  /** `get_name`, with a missing final component reported as an error. */
  function GetName(dir: FileName, explicit: Option<string>, bin: bool): (r: Result<string>)
    ensures explicit.Some? ==> r == Ok(explicit.value)
    ensures explicit.None? && dir.Component? && bin ==> r == Ok(dir.text)
    ensures explicit.None? && dir.Component? && !bin ==> r == Ok(StripRustAffixes(dir.text))
    ensures r.Err? <==> explicit.None? && !dir.Component?
    ensures explicit.None? && dir.NoFileName? ==> r == Err(NoProjectName)
    ensures explicit.None? && dir.NonUnicode? ==> r == Err(NonUnicodeName)
  {
    match explicit
    case Some(name) => Ok(name)
    case None =>
      match dir
      case NoFileName => Err(NoProjectName)
      case NonUnicode => Err(NonUnicodeName)
      case Component(dirName) =>
        if bin then Ok(dirName) else Ok(StripRustAffixes(dirName))
  }

  /** `get_name` as written: when the path has no final component, the error
      closure itself calls `unwrap()` on `path.file_name()`, so the process aborts
      instead of reporting an error. `None` stands for that abort. */
  function GetNameAsWritten(dir: FileName, explicit: Option<string>, bin: bool): (r: Option<Result<string>>)
    ensures r.None? <==> explicit.None? && dir.NoFileName?
    ensures r.Some? ==> r.value == GetName(dir, explicit, bin)
  {
    match explicit
    case Some(name) => Some(Ok(name))
    case None =>
      match dir
      case NoFileName => None
      case NonUnicode => Some(Err(NonUnicodeName))
      case Component(dirName) =>
        if bin then Some(Ok(dirName)) else Some(Ok(StripRustAffixes(dirName)))
  }

  /** `cargo new nonexistent/..` (no explicit name) aborts as written; the
      corrected `GetName` reports that no name can be derived. */
  lemma GetNameAbortsWithoutFileName(bin: bool)
    ensures GetNameAsWritten(NoFileName, None, bin).None?
    ensures GetName(NoFileName, None, bin) == Err(NoProjectName)
  {
  }
}
