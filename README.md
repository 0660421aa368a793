# cargo new / cargo init, modelled in Dafny

A model of `src/cargo/ops/cargo_new.rs`, the code behind `cargo new` and
`cargo init`:

- `new` refuses an existing destination. It derives the package name from the
  last path component (stripping one `rust-`/`-rs`-style affix for libraries),
  checks the name's characters and calls `mk`.
- `init` refuses a directory that already holds `Cargo.toml`. It derives and
  checks the name the same way. Unless told otherwise, it surveys the six
  candidate source files (`src/main.rs`, `main.rs`, `{name}.rs`,
  `src/{name}.rs`, `src/lib.rs`, `lib.rs`) to decide binary or library and the
  source path. It detects an existing `.git` or `.hg`, then calls `mk` with the
  updated copy of the options.
- `mk` reads the `cargo-new.*` configuration and chooses the VCS: explicit
  choice, else none inside an enclosing repository, else the configured one,
  else git. It initialises the repository and appends `target` and `Cargo.lock`
  to the ignore file. It discovers the author (git config, `USER`, `USERNAME`,
  `EMAIL`), writes `Cargo.toml` (with a `[[bin]]` or `[lib]` section for a
  non-default source path) and writes a stub source file unless one exists.

Modules, one per concern of the file:

| module | file | what it holds |
|---|---|---|
| `Common` | common.dfy | `VersionControl`, the error kinds, `Option`, `Result` |
| `ProjectState` | project_state.dfy | the `NewOptions` class that `init` clones and updates, the `Directory` class that `mk` writes into |
| `NameResolver` | name_resolver.dfy | `check_name`, `strip_rust_affixes`, `get_name` |
| `Vcs` | vcs.dfy | decoding a VCS name, `global_config`, the VCS choice in `mk`, `init`'s detection |
| `Author` | author.dfy | `discover_author`, `str::trim`, the author match in `mk` |
| `Manifest` | manifest.dfy | the ignore entries, TOML string quoting, the target section, the manifest text, the stubs |
| `SourceSurvey` | source_survey.dfy | `detect_source_path_and_type` |
| `CargoNew` | cargo_new.dfy | `new`, `init`, `mk` and what they leave on disk |

The project directory is a `Directory` object. It holds a map from relative
path to file contents, the set of metadata directories (`.git`, `.hg`) and
whether the directory itself exists. The methods `New`, `Init` and `Mk` change
it in place. Each is proved against a specification function:

- `NewPlan` and `InitPlan` give the checks and decisions before `mk`.
- `MkEffect` gives the outcome and the directory `mk` leaves.
- `InitEffect` combines `InitPlan` and `MkEffect` for `init`.

Lemmas then state what those functions promise.

The model follows the code, including where it behaves in ways a user might
not expect:

- There is one "multiple eligible source files" error, whichever candidates
  clash.
- In `mk` an enclosing repository wins over the configured VCS
  (src/cargo/ops/cargo_new.rs:230-235).
- `strip_rust_affixes` removes one affix only, so it is not idempotent.
- `new --vcs none` leaves no repository behind, so a later `init` over the
  project detects none and, with nothing configured and no enclosing
  repository, sets up git (`CargoNew.InitOverNoVcsProjectSetsUpGit`).
- `mk` is not plan-then-act. The author is discovered after the repository has
  been initialised and the ignore file appended, so a missing author leaves
  those changes behind (`CargoNew.MkFailureEffects`).

## Model

| member | source | states |
|---|---|---|
| `Vcs.DecodeVcs` | src/cargo/ops/cargo_new.rs:29-41 | exactly `git`, `hg` and `none` decode, each to the kind with that name; any other string is an error naming it |
| `Vcs.DecodeVcsName` | src/cargo/ops/cargo_new.rs:29-41 | every kind decodes back from its own name |
| `Vcs.GlobalConfig` | src/cargo/ops/cargo_new.rs:350-371 | fails exactly when `cargo-new.vcs` is set to an unknown name, and the error names it; name and email pass through; a set VCS is the one its name decodes to |
| `Vcs.SelectVcs` | src/cargo/ops/cargo_new.rs:230-235 | an explicit VCS wins; otherwise an enclosing repository gives no VCS; otherwise the configured one, else git |
| `Vcs.DetectVcs` | src/cargo/ops/cargo_new.rs:179-197 | both `.git` and `.hg` is an error; otherwise the one found is the choice; none found leaves it open |
| `Vcs.DetectedVcsIsUsed` | src/cargo/ops/cargo_new.rs:179-197 | a detected VCS becomes `mk`'s choice, whatever the configuration or an enclosing repository says |
| `NameResolver.NameCheck` | src/cargo/ops/cargo_new.rs:73-81 | a name passes exactly when every character is alphanumeric, `_` or `-`; on failure the error carries the first offending character and the name |
| `NameResolver.CheckName` | src/cargo/ops/cargo_new.rs:73-81 | the character scan returns what `NameCheck` decides |
| `NameResolver.StripsFirstRustPrefix` | src/cargo/ops/cargo_new.rs:206-210 | the first of `rust-`, `rust_`, `rs-`, `rs_` the name starts with is removed |
| `NameResolver.StripsFirstRustSuffix` | src/cargo/ops/cargo_new.rs:211-215 | when no prefix matches, the first of `-rust`, `_rust`, `-rs`, `_rs` the name ends with is removed |
| `NameResolver.FirstPrefixStripped` | src/cargo/ops/cargo_new.rs:206-210 | the prefix loop removes the first prefix in list order that matches |
| `NameResolver.NoPrefixStripped` | src/cargo/ops/cargo_new.rs:206-210 | with no matching prefix the loop falls through |
| `NameResolver.FirstSuffixStripped` | src/cargo/ops/cargo_new.rs:211-215 | the suffix loop removes the first suffix in list order that matches |
| `NameResolver.NoSuffixStripped` | src/cargo/ops/cargo_new.rs:211-215 | with no matching suffix the loop falls through |
| `NameResolver.PrefixStrippedIffSomeMatches` | src/cargo/ops/cargo_new.rs:206-210 | the prefix loop removes something exactly when some prefix matches, and what it removes is a matching prefix |
| `NameResolver.SuffixStrippedIffSomeMatches` | src/cargo/ops/cargo_new.rs:211-215 | the suffix loop removes something exactly when some suffix matches, and what it removes is a matching suffix |
| `NameResolver.StripKeepsNameIffNoAffix` | src/cargo/ops/cargo_new.rs:205-217 | the name comes back unchanged exactly when no prefix and no suffix matches |
| `NameResolver.StripRemovesAtMostOneAffix` | src/cargo/ops/cargo_new.rs:205-217 | the result is the name, or the name minus one prefix, or minus one suffix |
| `NameResolver.StripExamplesPrefix` | src/cargo/ops/cargo_new.rs:377-387 | `rust-foo` and `rs_foo` become `foo`; `rs-foo-rs` becomes `foo-rs` |
| `NameResolver.StripExamplesSuffix` | src/cargo/ops/cargo_new.rs:377-387 | `foo-rs` becomes `foo`; `foo-rs-rs` becomes `foo-rs` |
| `NameResolver.StripExampleMiddleUntouched` | src/cargo/ops/cargo_new.rs:385-386 | `some-rust-crate` is left as it is |
| `NameResolver.StripNotIdempotent` | src/cargo/ops/cargo_new.rs:382-384 | stripping `rs-foo-rs` twice differs from stripping it once |
| `NameResolver.StripRustAffixes` | src/cargo/ops/cargo_new.rs:205-217 | the result is never longer than the name and is its head (a suffix removed) or its tail (a prefix removed) |
| `NameResolver.NoRustPrefixOnF` | src/cargo/ops/cargo_new.rs:206 | a name starting with `f` has none of the prefixes |
| `NameResolver.GetName` | src/cargo/ops/cargo_new.rs:49-71 | an explicit name is used as given; otherwise the last path component, whole for a binary and affix-stripped for a library; with no explicit name, a missing final component is `NoProjectName` and a non-Unicode one `NonUnicodeName` |
| `NameResolver.GetNameAsWritten` | src/cargo/ops/cargo_new.rs:53-56 | the code as written aborts exactly when there is no name and no final path component; otherwise it agrees with `GetName` |
| `NameResolver.GetNameAbortsWithoutFileName` | src/cargo/ops/cargo_new.rs:53-56 | a path without a final component and no `--name` aborts as written, where the corrected `GetName` reports that no name can be derived |
| `Author.LeadingSpace` | src/cargo/ops/cargo_new.rs:344-345 | the count of leading whitespace: all of those are whitespace and the next character is not |
| `Author.TrailingSpace` | src/cargo/ops/cargo_new.rs:344-345 | the count of trailing whitespace: all of those are whitespace and the character before is not |
| `Author.Trim` | src/cargo/ops/cargo_new.rs:344-345 | the result is a slice of the input with only whitespace before and after it, and does not begin or end with whitespace |
| `Author.TrimIdempotent` | src/cargo/ops/cargo_new.rs:344-345 | trimming twice is trimming once |
| `Author.DiscoverAuthor` | src/cargo/ops/cargo_new.rs:326-348 | fails exactly when git's `user.name`, `USER` and `USERNAME` are all missing, naming `USERNAME` on Windows and `USER` elsewhere; the name is the first present of them, trimmed; the email is git's `user.email`, else `EMAIL`, trimmed, and missing only when both are |
| `Author.ComposeAuthor` | src/cargo/ops/cargo_new.rs:257-264 | the configured name wins over the discovered one and the configured email over the discovered one; with an email the author is `name <email>`, otherwise the name |
| `Author.AuthorHasEmailIffSomeEmail` | src/cargo/ops/cargo_new.rs:257-264 | for a name without `<`, the author string holds `<` exactly when some email is known |
| `Manifest.EscapeCharShape` | src/cargo/ops/cargo_new.rs:303 | each character is kept as itself (never a quote or backslash) or becomes a backslash escape that reads back as it |
| `Manifest.UnescapeEscapedChar` | src/cargo/ops/cargo_new.rs:303 | reading back an escaped character followed by readable text gives the character followed by that text |
| `Manifest.EscapeRoundTrip` | src/cargo/ops/cargo_new.rs:303 | every string quoted as a TOML basic string reads back unchanged |
| `Manifest.SourceTargetOf` | src/cargo/ops/cargo_new.rs:266-296 | the source file is the given path, else `src/main.rs` for a binary and `src/lib.rs` for a library; the specifier is empty exactly when that path is the default, and otherwise is the `[[bin]]` or `[lib]` section naming the package and the quoted path |
| `Manifest.TargetSection` | src/cargo/ops/cargo_new.rs:277-291 | the `[[bin]]` or `[lib]` section names the package, and the quoted text after `path = ` reads back as the source path, followed by the closing quote and newline |
| `Manifest.AuthorsHead` | src/cargo/ops/cargo_new.rs:298-302 | the text before the author starts with the `[package]` section |
| `Manifest.ManifestText` | src/cargo/ops/cargo_new.rs:298-303 | after the `[package]` section and `authors = ["` comes the quoted author, which reads back as the author; then `"]`, a newline and the specifier, which ends the text |
| `Manifest.ManifestStartsWithPackage` | src/cargo/ops/cargo_new.rs:298-303 | the manifest starts with the `[package]` section (name, version `0.1.0`) |
| `Manifest.Stub` | src/cargo/ops/cargo_new.rs:309-321 | the binary stub contains `fn main` and the library stub does not, so reading the stub back classifies it as the kind it was written for |
| `Manifest.LibStubUnmarked` | src/cargo/ops/cargo_new.rs:316-320 | `fn main` occurs nowhere in the library stub |
| `SourceSurvey.Verdict` | src/cargo/ops/cargo_new.rs:137-141 | the survey fails exactly when more than one file was counted, with the one "multiple source files" error |
| `SourceSurvey.SurveyClosedForm` | src/cargo/ops/cargo_new.rs:89-135 | the six probes in order: the count is the number of counted files; the project is a binary when it was one, `src/main.rs` or `main.rs` exists, or a `{name}.rs` / `src/{name}.rs` holds `fn main`; the path is the last counted file, or the original when none is counted |
| `SourceSurvey.SurveyFailsIffSeveralCounted` | src/cargo/ops/cargo_new.rs:89-140 | the survey fails exactly when more than one file is counted |
| `SourceSurvey.SurveySingleFile` | src/cargo/ops/cargo_new.rs:89-140 | exactly one counted file: the survey succeeds and records that file |
| `SourceSurvey.SurveyNothingFound` | src/cargo/ops/cargo_new.rs:89-140 | no candidate present: the survey succeeds and leaves the kind and the path as they were |
| `SourceSurvey.ContainsIffOccurs` | src/cargo/ops/cargo_new.rs:104 | the substring search finds the pattern exactly when it occurs at some position of the text |
| `SourceSurvey.AutodetectBinFile` | src/cargo/ops/cargo_new.rs:101-105 | a file is taken for a binary exactly when `fn main` occurs somewhere in its contents |
| `SourceSurvey.LibFilesIgnoredOnceBin` | src/cargo/ops/cargo_new.rs:128-135 | once the project is a binary, `src/lib.rs` and `lib.rs` are not counted |
| `SourceSurvey.BothLibFilesFail` | tests/test_cargo_init.rs:114-140 | `src/lib.rs` and `lib.rs` together in a library project fail the survey |
| `SourceSurvey.NameClashFails` | tests/test_cargo_init.rs:143-171 | `main.rs` next to `{name}.rs` fails the survey |
| `SourceSurvey.NamedMainCountsFileTwice` | src/cargo/ops/cargo_new.rs:96-115 | a project named `main` with a `main.rs` counts that file twice and fails |
| `SourceSurvey.ProbeInto` | src/cargo/ops/cargo_new.rs:91-135 | one probe on the options being filled in leaves them and the count as the pure `Probe` step says |
| `SourceSurvey.DetectSourcePathAndType` | src/cargo/ops/cargo_new.rs:83-142 | the six probes leave `bin` and the source path as `SurveyOf` gives them, and the result is its `Verdict` |
| `ProjectState.Appended` | src/cargo/ops/cargo_new.rs:242 | appending creates the file when absent, puts the text after the old contents and leaves other files alone |
| `ProjectState.Written` | src/cargo/ops/cargo_new.rs:298-303 | writing makes the file hold exactly the text and leaves other files alone |
| `ProjectState.WrittenIfAbsent` | src/cargo/ops/cargo_new.rs:309-321 | an existing file keeps its contents; a missing one gets the text; other files are left alone |
| `ProjectState.NewOptions.Clone` | src/cargo/ops/cargo_new.rs:173 | the clone holds the same options |
| `ProjectState.Directory.Append` | src/cargo/ops/cargo_new.rs:242 | the files become `Appended` of the old ones and the directory exists |
| `ProjectState.Directory.Write` | src/cargo/ops/cargo_new.rs:298-303 | the files become `Written` of the old ones and the directory exists |
| `ProjectState.Directory.WriteIfNotExists` | src/cargo/ops/cargo_new.rs:309-321 | the files become `WrittenIfAbsent` of the old ones and the directory exists |
| `ProjectState.Directory.InitRepo` | src/cargo/ops/cargo_new.rs:239-241 | initialising a repository adds its metadata directory and changes no file |
| `ProjectState.Directory.CreateRoot` | src/cargo/ops/cargo_new.rs:250-252 | creating the directory makes it exist and changes nothing in it |
| `CargoNew.IgnoreAppended` | src/cargo/ops/cargo_new.rs:226-228 | after the VCS step the ignore file of git or mercurial holds its old contents plus `target` and `Cargo.lock`; no other file changes |
| `CargoNew.RepoDirs` | src/cargo/ops/cargo_new.rs:237-253 | the VCS step adds at most the chosen VCS's metadata directory and removes none |
| `CargoNew.SetUpVcs` | src/cargo/ops/cargo_new.rs:237-253 | git initialises a repository unless `.git` exists, mercurial unless the `.hg` directory exists, then the ignore entries are appended; no VCS only creates the directory |
| `CargoNew.Mk` | src/cargo/ops/cargo_new.rs:223-324 | the outcome and the directory left behind are `MkEffect` of the old directory and the options |
| `CargoNew.New` | src/cargo/ops/cargo_new.rs:144-158 | a failed check returns its error and changes nothing; otherwise the effect is `mk`'s on an empty directory |
| `CargoNew.NewPlanChecks` | src/cargo/ops/cargo_new.rs:144-158 | `new` goes ahead exactly when the destination is missing and a valid name is derived; the plan carries that name and the options unchanged |
| `CargoNew.DetectExistingVcs` | src/cargo/ops/cargo_new.rs:179-197 | the counter-based detection agrees with `DetectVcs`: both present is an error, one present becomes the option, none leaves it; no other option changes |
| `CargoNew.PrepareInit` | src/cargo/ops/cargo_new.rs:160-197 | the checks before `mk` return `InitPlan`'s error, or succeed with the name and the updated copy of the options making up `InitPlan`'s plan |
| `CargoNew.Init` | src/cargo/ops/cargo_new.rs:160-203 | the outcome and the directory left behind are `InitEffect`: unchanged on a failed check, `mk`'s effect otherwise |
| `CargoNew.InitPlanStages` | src/cargo/ops/cargo_new.rs:173-197 | after the manifest and name checks, `init` fails on a failed survey, else keeps an explicit VCS, else fails when both `.git` and `.hg` exist, else takes the detected one |
| `CargoNew.ExistingDestinationRefused` | src/cargo/ops/cargo_new.rs:146-149 | `new` refuses an existing destination, and `init` one that already holds `Cargo.toml` (lines 164-168) |
| `CargoNew.MkSucceedsIffConfigAndAuthor` | src/cargo/ops/cargo_new.rs:223-324 | `mk` succeeds exactly when the configuration is valid and an author is found |
| `CargoNew.MkFailureEffects` | src/cargo/ops/cargo_new.rs:225-255 | a bad configuration changes nothing; a missing author leaves only the VCS step done; the manifest is never written |
| `CargoNew.MkWritesManifestAndSource` | src/cargo/ops/cargo_new.rs:298-321 | after success the directory exists, `Cargo.toml` holds the manifest with the composed author and the specifier, and the source file is the stub when it was missing and untouched otherwise |
| `CargoNew.RealisedWritesManifestAndSource` | src/cargo/ops/cargo_new.rs:298-321 | the writes hold the manifest, and the source file is kept if present, else the stub |
| `CargoNew.RealisedPreservesOtherFiles` | src/cargo/ops/cargo_new.rs:237-321 | the writes add only the manifest, the source file and the ignore file, and change no other file |
| `CargoNew.RealisedKeys` | src/cargo/ops/cargo_new.rs:237-321 | the files after the writes are the old ones plus the manifest, the source file and the ignore file |
| `CargoNew.RealisedAppendsIgnoreEntries` | src/cargo/ops/cargo_new.rs:242-248 | the ignore file holds its old contents followed by the two entries |
| `CargoNew.MkPreservesOtherFiles` | src/cargo/ops/cargo_new.rs:237-321 | a successful `mk` adds only the manifest, the source file and the ignore file, changes no other file and only adds directories |
| `CargoNew.MkAppendsIgnoreEntries` | tests/test_cargo_init.rs:257-278 | the ignore file keeps what it held before and gets `target` and `Cargo.lock` after it |
| `CargoNew.MkSucceeded` | src/cargo/ops/cargo_new.rs:223-324 | with a valid configuration and an author, `mk` succeeds, writes the manifest and the source file over the old files and adds the chosen VCS's directory |
| `CargoNew.ManifestRecordsAuthor` | src/cargo/ops/cargo_new.rs:257-264 | in the manifest `mk` writes, the quoted text after `authors = ["` reads back as the composed author (lines 298-303) |
| `CargoNew.ManifestNamesPackage` | src/cargo/ops/cargo_new.rs:298-303 | the manifest written starts with the `[package]` section naming the package |
| `CargoNew.StemAvoids` | src/cargo/ops/cargo_new.rs:73-81 | a valid name's `{name}.rs` cannot be a path holding a character no name may contain |
| `CargoNew.OnlyDefaultCandidate` | src/cargo/ops/cargo_new.rs:91-135 | in the layout `new` leaves, the default source file is the only candidate present |
| `CargoNew.SurveyOfFreshLayout` | src/cargo/ops/cargo_new.rs:83-142 | surveying that layout finds exactly the default source file and the kind `new` chose |
| `CargoNew.InitPlanOfFreshLayout` | src/cargo/ops/cargo_new.rs:160-197 | `init`'s plan for that layout keeps the kind, the default source file and the VCS |
| `CargoNew.FreshLayout` | src/cargo/ops/cargo_new.rs:223-324 | a successful `mk` into a missing directory leaves the manifest, the default source file, the ignore file and the repository, nothing else |
| `CargoNew.WithoutManifest` | src/cargo/ops/cargo_new.rs:298-321 | removing the manifest from that layout leaves the source file and the ignore file |
| `CargoNew.InitRecognisesNewLayout` | src/cargo/ops/cargo_new.rs:144-203 | for a package not named `main` or `lib`, `init` given that name with `--name` over a project `new` created, with its manifest removed, comes to the same kind and the default source file; it keeps git or mercurial, and when `new` chose no VCS the choice is left open |
| `CargoNew.InitOverNoVcsProjectSetsUpGit` | src/cargo/ops/cargo_new.rs:179-197 | after `new` chose no VCS, with nothing configured and no enclosing repository, `init` over that project detects nothing and so sets up git (lines 230-235) |

## Left out

- Filesystem and repository errors are not modelled: the `try!` around `GitRepo::init`, `HgRepo::init`, `paths::append`, `paths::write`, `fs::create_dir_all` and `write_if_not_exists`. Each operation is assumed to succeed.
- src/cargo/util/paths.rs is not part of this model. `append`, `write`, `write_if_not_exists`, `file_already_exists` and `directory_already_exists` are modelled on the map of files and the set of directories.
- Creating a repository is reduced to the appearance of its `.git` or `.hg` directory. `existing_vcs_repo` (lines 219-221) is an input (`Environment.inExistingVcsRepo`), because `discover` walks directories outside the project.
- The git configuration, the environment variables and the `cargo-new.*` keys are inputs (`Identity`, `ConfigValues`), and so is whether the platform is Windows. Errors from reading the configuration (the `try!` at lines 351-353) are not modelled.
- The note printed when affixes are stripped (lines 61-66) is left out, as is the error of writing it.
- Error messages are kinds in `Common.Error`; their text and the `chain_error` context added by `new` and `init` are left out.
- `NewOptions.path`, the join with the working directory, and `init`'s `assert_eq!(opts.path, ".")` (line 161) are left out. The model works on the project directory itself, and the `with_argument` test passes another path.
- `mk`'s `path.parent().unwrap()` (line 227) is left out with `existing_vcs_repo`.
- Creating the source file's parent directory (lines 305-307) is left out: directories other than `.git`/`.hg` are implicit in the file paths.
- `autodetect_bin_file` failing to read a file (line 103) is left out: an existing file is always readable.
- `NameResolver.CheckName`: `char::is_alphanumeric` is approximated by ASCII letters and digits. Names with non-ASCII letters or digits are rejected by the model and accepted by the code; `NameResolver.NameCheck` shares the approximation.
- `Manifest.EscapeRoundTrip`: TOML's `\uXXXX` escapes for other control characters are not modelled. The model leaves such characters as they are.
- CargoNew.New / CargoNew.Init: they use the corrected `GetName`, so with no final path component and no `--name` they return `Err(NoProjectName)` where the code aborts (see Findings).
- CargoNew.InitRecognisesNewLayout: the name is passed to `init` with `--name` rather than derived again from the directory, and the names `main` and `lib` are excluded, because their `{name}.rs` probes hit the default files a second time.
- Command-line parsing (`unknown_flags`) and the `cargo build` steps of the tests are outside this file.
- `Directory.Exists` treats a directory as present for every `fs::metadata` check. `write_if_not_exists` on a path that is a directory is not modelled.

## Findings

| source | as written | input that shows it | evidently intended | confidence | as-written member | corrected member |
|---|---|---|---|---|---|---|
| src/cargo/ops/cargo_new.rs:53-56 | the error closure of `get_name` calls `path.file_name().unwrap()`, so when the path has no final component, building the "non-unicode name" message aborts the command | `cargo new nonexistent/..` with no `--name` (no final component) | a clean error that no name can be derived, as the `no_filename` test expects (tests/test_cargo_init.rs:298-307) | medium, not executed | `NameResolver.GetNameAsWritten` (with `NameResolver.GetNameAbortsWithoutFileName`) | `NameResolver.GetName` |
