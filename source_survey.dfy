/** `detect_source_path_and_type`: probing the six candidate source files in order,
    classifying them as binary or library and counting them. */
module SourceSurvey {
  import opened Common
  import opened ProjectState

  /** The text whose presence makes a `{name}.rs` / `src/{name}.rs` file a binary. */
  const EntryMarker: string := "fn main"

  /** `str::contains`: `pattern` occurs somewhere in `text`. */
  predicate Contains(text: string, pattern: string)
    decreases |text|
  {
    pattern <= text || (text != [] && Contains(text[1..], pattern))
  }

  /** `pattern` sits at position `i` of `text`. */
  predicate OccursAt(text: string, pattern: string, i: int) {
    0 <= i && i + |pattern| <= |text| && text[i..i + |pattern|] == pattern
  }

  /** `Contains` finds `pattern` exactly when it sits at some position of `text`. */
  lemma {:induction false} ContainsIffOccurs(text: string, pattern: string)
    ensures Contains(text, pattern) <==> exists i :: OccursAt(text, pattern, i)
    decreases |text|
  {
    if pattern <= text {
      assert OccursAt(text, pattern, 0);
    } else if text == [] {
      assert pattern != [];
    } else {
      ContainsIffOccurs(text[1..], pattern);
      if i :| OccursAt(text[1..], pattern, i) {
        assert text[1..][i..i + |pattern|] == text[i + 1..i + 1 + |pattern|];
        assert OccursAt(text, pattern, i + 1);
      }
      if i :| OccursAt(text, pattern, i) {
        assert i != 0;
        assert text[1..][i - 1..i - 1 + |pattern|] == text[i..i + |pattern|];
        assert OccursAt(text[1..], pattern, i - 1);
      }
    }
  }

  /** `autodetect_bin_file` on the contents of an existing file: a binary exactly
      when `fn main` occurs somewhere in it. */
  function AutodetectBinFile(contents: string): (b: bool)
    ensures b <==> exists i :: OccursAt(contents, EntryMarker, i)
  {
    ContainsIffOccurs(contents, EntryMarker);
    Contains(contents, EntryMarker)
  }

  /** How a candidate file affects the survey when it exists. */
  datatype Rule =
    | AlwaysBin      // makes the project a binary
    | Detect         // decided by the entry marker, unless already a binary
    | LibUnlessBin   // looked at only while the project is not a binary

  datatype Candidate = Candidate(path: string, rule: Rule)

  /** The probe order: `src/main.rs`, `main.rs`, `{name}.rs`, `src/{name}.rs`,
      `src/lib.rs`, `lib.rs`. */
  function Candidates(name: string): seq<Candidate> {
    [ Candidate("src/main.rs", AlwaysBin),
      Candidate("main.rs", AlwaysBin),
      Candidate(name + ".rs", Detect),
      Candidate("src/" + name + ".rs", Detect),
      Candidate("src/lib.rs", LibUnlessBin),
      Candidate("lib.rs", LibUnlessBin) ]
  }

  /** The survey's state: `opts2.bin`, `opts2.sourcefile_relative_path` and the
      `found_source_files` counter. */
  datatype Survey = Survey(bin: bool, path: Option<string>, found: nat)

  /** One probe. */
  function Probe(files: map<string, string>, s: Survey, c: Candidate): Survey {
    match c.rule
    case AlwaysBin =>
      if c.path in files then Survey(true, Some(c.path), s.found + 1) else s
    case Detect =>
      if c.path in files then
        Survey(if s.bin then true else AutodetectBinFile(files[c.path]), Some(c.path), s.found + 1)
      else s
    case LibUnlessBin =>
      if !s.bin && c.path in files then Survey(s.bin, Some(c.path), s.found + 1) else s
  }

  function ProbeAll(files: map<string, string>, s: Survey, cs: seq<Candidate>): Survey
    decreases |cs|
  {
    if cs == [] then s else ProbeAll(files, Probe(files, s, cs[0]), cs[1..])
  }

  /** The state after all six probes, starting from the options' `bin` and path
      and a zero count. */
  function SurveyOf(files: map<string, string>, name: string, bin: bool, path: Option<string>): Survey {
    ProbeAll(files, Survey(bin, path, 0), Candidates(name))
  }

  /** The verdict: more than one counted file is the one survey error. */
  function Verdict(s: Survey): (r: Result<()>)
    ensures r.Err? <==> s.found > 1
    ensures r.Err? ==> r.error == MultipleSourceFiles
  {
    if s.found > 1 then Err(MultipleSourceFiles) else Ok(())
  }

  /** `[p]` when `p` exists, otherwise nothing. */
  function IfPresent(files: map<string, string>, p: string): seq<string> {
    if p in files then [p] else []
  }

  predicate Marked(files: map<string, string>, p: string) {
    p in files && AutodetectBinFile(files[p])
  }

  /** Whether the project is a binary by the time the library candidates are
      reached: it was one already, `src/main.rs` or `main.rs` exists, or a
      `{name}.rs` / `src/{name}.rs` file holds the entry marker. */
  predicate BinBeforeLibs(files: map<string, string>, name: string, bin: bool) {
    || bin
    || "src/main.rs" in files
    || "main.rs" in files
    || Marked(files, name + ".rs")
    || Marked(files, "src/" + name + ".rs")
  }

  /** The files the survey counts, in probe order: every existing non-library
      candidate, and the existing library candidates only when the project is not
      a binary by then. A file is listed twice when `{name}.rs` names it too. */
  function CountedFiles(files: map<string, string>, name: string, bin: bool): seq<string> {
    IfPresent(files, "src/main.rs") + IfPresent(files, "main.rs")
    + IfPresent(files, name + ".rs") + IfPresent(files, "src/" + name + ".rs")
    + (if BinBeforeLibs(files, name, bin) then []
       else IfPresent(files, "src/lib.rs") + IfPresent(files, "lib.rs"))
  }

  /** The recorded path after counting `counted`: the last of them, or the
      original path when there is none. */
  function LastOr(counted: seq<string>, path: Option<string>): Option<string> {
    if counted == [] then path else Some(counted[|counted| - 1])
  }

  /** The survey, stated without its running state: the count is the number of
      counted files, `bin` is whether the project was a binary before the library
      candidates, and the path is the last counted file (or the original path when
      none is counted). */
  lemma SurveyClosedForm(files: map<string, string>, name: string, bin: bool, path: Option<string>)
    ensures var s := SurveyOf(files, name, bin, path);
      var counted := CountedFiles(files, name, bin);
      && s.found == |counted|
      && s.bin == BinBeforeLibs(files, name, bin)
      && s.path == LastOr(counted, path)
  {
    var cs := Candidates(name);
    var s1 := Probe(files, Survey(bin, path, 0), cs[0]);
    var s2 := Probe(files, s1, cs[1]);
    var s3 := Probe(files, s2, cs[2]);
    var s4 := Probe(files, s3, cs[3]);
    var s5 := Probe(files, s4, cs[4]);
    var s6 := Probe(files, s5, cs[5]);
    SurveyUnrolled(files, name, bin, path);
    var c1 := IfPresent(files, "src/main.rs");
    var c2 := c1 + IfPresent(files, "main.rs");
    var c3 := c2 + IfPresent(files, name + ".rs");
    var c4 := c3 + IfPresent(files, "src/" + name + ".rs");
    assert s1.found == |c1| && s1.path == LastOr(c1, path);
    assert s2.found == |c2| && s2.path == LastOr(c2, path);
    assert s3.found == |c3| && s3.path == LastOr(c3, path);
    assert s4.found == |c4| && s4.path == LastOr(c4, path);
    assert s4.bin == BinBeforeLibs(files, name, bin);
    if !s4.bin {
      var c5 := c4 + IfPresent(files, "src/lib.rs");
      var c6 := c5 + IfPresent(files, "lib.rs");
      assert s5.found == |c5| && s5.path == LastOr(c5, path);
      assert s6.found == |c6| && s6.path == LastOr(c6, path);
      assert CountedFiles(files, name, bin) == c6;
    } else {
      assert CountedFiles(files, name, bin) == c4;
    }
  }

  /** The survey fails exactly when it counts more than one file. */
  lemma SurveyFailsIffSeveralCounted(files: map<string, string>, name: string, bin: bool, path: Option<string>)
    ensures Verdict(SurveyOf(files, name, bin, path)).Err? <==> |CountedFiles(files, name, bin)| > 1
  {
    SurveyClosedForm(files, name, bin, path);
  }

  /** With exactly one counted file the survey succeeds and records that file. */
  lemma SurveySingleFile(files: map<string, string>, name: string, bin: bool, path: Option<string>)
    requires |CountedFiles(files, name, bin)| == 1
    ensures var s := SurveyOf(files, name, bin, path);
      Verdict(s).Ok? && s.path == Some(CountedFiles(files, name, bin)[0])
  {
    SurveyClosedForm(files, name, bin, path);
  }

  /** With none of the six candidates present the survey succeeds and leaves `bin`
      and the path as they were. */
  lemma SurveyNothingFound(files: map<string, string>, name: string, bin: bool, path: Option<string>)
    requires forall c | c in Candidates(name) :: c.path !in files
    ensures var s := SurveyOf(files, name, bin, path);
      Verdict(s).Ok? && s.bin == bin && s.path == path
  {
    var cs := Candidates(name);
    assert cs[0] in cs && cs[1] in cs && cs[2] in cs && cs[3] in cs && cs[4] in cs && cs[5] in cs;
    SurveyClosedForm(files, name, bin, path);
  }

  /** Different stems give different file names. */
  lemma DistinctStems(a: string, b: string, suffix: string)
    requires a != b
    ensures a + suffix != b + suffix
  {
    if |a| == |b| {
      var k :| 0 <= k < |a| && a[k] != b[k];
      assert (a + suffix)[k] != (b + suffix)[k];
    } else {
      assert |a + suffix| != |b + suffix|;
    }
  }

  /** Different names give different paths under the same directory. */
  lemma DistinctUnder(dir: string, a: string, b: string)
    requires a != b
    ensures dir + a != dir + b
  {
    assert (dir + a)[|dir|..] == a;
    assert (dir + b)[|dir|..] == b;
  }

  /** Once the project is a binary, `src/lib.rs` and `lib.rs` are never counted
      (for a project not itself named `lib`; a name has no `/`). */
  lemma LibFilesIgnoredOnceBin(files: map<string, string>, name: string, bin: bool)
    requires name != "lib" && '/' !in name
    requires BinBeforeLibs(files, name, bin)
    ensures "src/lib.rs" !in CountedFiles(files, name, bin)
    ensures "lib.rs" !in CountedFiles(files, name, bin)
  {
    DistinctStems(name, "lib", ".rs");
    assert "src/lib"[3] == '/';
    DistinctStems(name, "src/lib", ".rs");
    DistinctUnder("src/", name, "lib");
    DistinctStems("src/" + name, "src/lib", ".rs");
    assert "src/" + name + ".rs" == ("src/" + name) + ".rs";
    assert "src/lib" + ".rs" == "src/lib.rs";
    assert "lib" + ".rs" == "lib.rs";
  }

  /** `confused_by_multiple_lib_files`: both library files in a project that is not
      a binary is an error. */
  lemma BothLibFilesFail(files: map<string, string>, name: string, bin: bool, path: Option<string>)
    requires !BinBeforeLibs(files, name, bin)
    requires "src/lib.rs" in files && "lib.rs" in files
    ensures Verdict(SurveyOf(files, name, bin, path)) == Err(MultipleSourceFiles)
  {
    SurveyClosedForm(files, name, bin, path);
  }

  /** `multibin_project_name_clash`: a `{name}.rs` file next to `main.rs` is an
      error, whatever the file holds. */
  lemma NameClashFails(files: map<string, string>, name: string, bin: bool, path: Option<string>)
    requires "main.rs" in files && name + ".rs" in files
    ensures Verdict(SurveyOf(files, name, bin, path)) == Err(MultipleSourceFiles)
  {
    SurveyClosedForm(files, name, bin, path);
  }

  /** A project named `main` counts an existing `main.rs` twice (as `main.rs` and as
      `{name}.rs`), so the survey fails although only one file exists. */
  lemma NamedMainCountsFileTwice(files: map<string, string>, bin: bool, path: Option<string>)
    requires "main.rs" in files
    ensures Verdict(SurveyOf(files, "main", bin, path)) == Err(MultipleSourceFiles)
  {
    assert "main" + ".rs" == "main.rs";
    NameClashFails(files, "main", bin, path);
  }

  /** One probe of `detect_source_path_and_type` on the options being filled in:
      the existing candidate `c` updates `opts2.bin` and the recorded path as its
      rule says, and is counted. */
  method ProbeInto(dir: Directory, c: Candidate, opts2: NewOptions, found: nat) returns (found': nat)
    modifies opts2`bin, opts2`sourcefileRelativePath
    ensures Survey(opts2.bin, opts2.sourcefileRelativePath, found')
         == Probe(dir.files, Survey(old(opts2.bin), old(opts2.sourcefileRelativePath), found), c)
  {
    found' := found;
    match c.rule {
      case AlwaysBin =>
        if c.path in dir.files {
          opts2.bin := true;
          opts2.sourcefileRelativePath := Some(c.path);
          found' := found' + 1;
        }
      case Detect =>
        if c.path in dir.files {
          if opts2.bin {
            // already a binary
          } else {
            opts2.bin := AutodetectBinFile(dir.files[c.path]);
          }
          opts2.sourcefileRelativePath := Some(c.path);
          found' := found' + 1;
        }
      case LibUnlessBin =>
        if !opts2.bin && c.path in dir.files {
          found' := found' + 1;
          opts2.sourcefileRelativePath := Some(c.path);
        }
    }
  }

  /** `detect_source_path_and_type`: the six probes in order, updating `opts2.bin`,
      `opts2.sourcefile_relative_path` and the counter, then failing when more than
      one file was counted; the other options are outside its frame. */
  method DetectSourcePathAndType(dir: Directory, name: string, opts2: NewOptions) returns (r: Result<()>)
    modifies opts2`bin, opts2`sourcefileRelativePath
    ensures var s := SurveyOf(dir.files, name, old(opts2.bin), old(opts2.sourcefileRelativePath));
      && opts2.bin == s.bin
      && opts2.sourcefileRelativePath == s.path
      && r == Verdict(s)
  {
    var foundSourceFiles := 0;
    foundSourceFiles := ProbeInto(dir, Candidate("src/main.rs", AlwaysBin), opts2, foundSourceFiles);
    foundSourceFiles := ProbeInto(dir, Candidate("main.rs", AlwaysBin), opts2, foundSourceFiles);
    foundSourceFiles := ProbeInto(dir, Candidate(name + ".rs", Detect), opts2, foundSourceFiles);
    foundSourceFiles := ProbeInto(dir, Candidate("src/" + name + ".rs", Detect), opts2, foundSourceFiles);
    foundSourceFiles := ProbeInto(dir, Candidate("src/lib.rs", LibUnlessBin), opts2, foundSourceFiles);
    foundSourceFiles := ProbeInto(dir, Candidate("lib.rs", LibUnlessBin), opts2, foundSourceFiles);

    SurveyUnrolled(dir.files, name, old(opts2.bin), old(opts2.sourcefileRelativePath));
    if foundSourceFiles > 1 {
      return Err(MultipleSourceFiles);
    }
    return Ok(());
  }

  /** `SurveyOf` is the six probes applied one after the other. */
  lemma SurveyUnrolled(files: map<string, string>, name: string, bin: bool, path: Option<string>)
    ensures var cs := Candidates(name);
      SurveyOf(files, name, bin, path)
      == Probe(files, Probe(files, Probe(files, Probe(files, Probe(files, Probe(files,
           Survey(bin, path, 0), cs[0]), cs[1]), cs[2]), cs[3]), cs[4]), cs[5])
  {
    var cs := Candidates(name);
    var s0 := Survey(bin, path, 0);
    var s1 := Probe(files, s0, cs[0]);
    var s2 := Probe(files, s1, cs[1]);
    var s3 := Probe(files, s2, cs[2]);
    var s4 := Probe(files, s3, cs[3]);
    var s5 := Probe(files, s4, cs[4]);
    var s6 := Probe(files, s5, cs[5]);
    assert ProbeAll(files, s6, cs[6..]) == s6;
    assert ProbeAll(files, s5, cs[5..]) == s6;
    assert ProbeAll(files, s4, cs[4..]) == s6;
    assert ProbeAll(files, s3, cs[3..]) == s6;
    assert ProbeAll(files, s2, cs[2..]) == s6;
    assert ProbeAll(files, s1, cs[1..]) == s6;
  }
}
