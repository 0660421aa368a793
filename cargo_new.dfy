/** The `new` and `init` operations and `mk`, which realises the project on disk. */
module CargoNew {
  import opened Common
  import opened ProjectState
  import opened NameResolver
  import opened SourceSurvey
  import opened Vcs
  import opened Author
  import opened Manifest

  /** What the operations learn from outside the project directory: the final
      component of its path, whether an ancestor is already a git or mercurial
      checkout, the `cargo-new.*` configuration and the author's identity. */
  datatype Environment = Environment(
    fileName: FileName,
    inExistingVcsRepo: bool,
    config: ConfigValues,
    identity: Identity)

  /** What `mk` is asked to create: the name and the options it reads. */
  datatype Plan = Plan(
    name: string,
    bin: bool,
    source: Option<string>,
    versionControl: Option<VersionControl>)

  /** The outcome of `mk` together with the directory it leaves behind. */
  datatype Effect = Effect(
    outcome: Result<()>,
    files: map<string, string>,
    dirs: set<string>,
    present: bool)

  /** The file names the VCS step adds: the ignore file, if any. */
  function IgnoreKeys(vcs: VersionControl): set<string> {
    if IgnoreFile(vcs).Some? then {IgnoreFile(vcs).value} else {}
  }

  /** The files after the VCS step: the ignore file, if any, has the two entries
      appended, and every other file is as it was. */
  function IgnoreAppended(files: map<string, string>, vcs: VersionControl): (r: map<string, string>)
    ensures r.Keys == files.Keys + IgnoreKeys(vcs)
    ensures forall q | q in files && Some(q) != IgnoreFile(vcs) :: r[q] == files[q]
    ensures IgnoreFile(vcs).Some? ==>
      var f := IgnoreFile(vcs).value;
      r[f] == (if f in files then files[f] else "") + IgnoreEntries
  {
    match IgnoreFile(vcs)
    case Some(f) => Appended(files, f, IgnoreEntries)
    case None => files
  }

  /** The directories after the VCS step: a repository is initialised when its
      metadata is missing (for git anything named `.git` counts, for mercurial
      only a directory `.hg`). */
  function RepoDirs(files: map<string, string>, dirs: set<string>, vcs: VersionControl): (r: set<string>)
    ensures dirs <= r && r - dirs <= (if vcs == Git then {".git"} else if vcs == Hg then {".hg"} else {})
  {
    match vcs
    case Git => if ".git" in files || ".git" in dirs then dirs else dirs + {".git"}
    case Hg => if ".hg" in dirs then dirs else dirs + {".hg"}
    case NoVcs => dirs
  }

  /** The files after a successful `mk`: the ignore entries appended, the manifest
      written, the stub written where no file exists. */
  function Realised(files: map<string, string>, vcs: VersionControl, manifest: string,
                    target: string, bin: bool): map<string, string>
  {
    WrittenIfAbsent(Written(IgnoreAppended(files, vcs), "Cargo.toml", manifest), target, Stub(bin))
  }

  /** Everything `mk` does, in order: read the configuration (failing before any
      write), choose the VCS and set it up, find the author (failing after the VCS
      step), write the manifest, and write the stub only where no file exists. */
  function MkEffect(files: map<string, string>, dirs: set<string>, present: bool,
                    plan: Plan, env: Environment): Effect
  {
    match GlobalConfig(env.config)
    case Err(e) => Effect(Err(e), files, dirs, present)
    case Ok(cfg) =>
      var vcs := ChosenVcs(cfg, plan, env);
      match DiscoverAuthor(env.identity)
      case Err(e) => Effect(Err(e), IgnoreAppended(files, vcs), RepoDirs(files, dirs, vcs), true)
      case Ok(who) =>
        Effect(Ok(()),
               Realised(files, vcs, MkManifest(plan, cfg, who), SourceTargetOf(plan.source, plan.bin, plan.name).path, plan.bin),
               RepoDirs(files, dirs, vcs), true)
  }

  /** The VCS `mk` sets up once the configuration has been read. */
  function ChosenVcs(cfg: CargoNewConfig, plan: Plan, env: Environment): VersionControl {
    SelectVcs(plan.versionControl, cfg.versionControl, env.inExistingVcsRepo)
  }

  /** The manifest `mk` writes, from the configuration and the discovered author. */
  function MkManifest(plan: Plan, cfg: CargoNewConfig, who: (string, Option<string>)): string {
    ManifestText(plan.name, ComposeAuthor(cfg.name, cfg.email, who.0, who.1),
                 SourceTargetOf(plan.source, plan.bin, plan.name).specifier)
  }

  /** The VCS step of `mk`: initialise the repository unless its metadata is
      there and append the ignore entries, or, with no VCS, just create the
      directory. */
  method SetUpVcs(dir: Directory, vcs: VersionControl)
    requires dir.Valid()
    modifies dir
    ensures dir.Valid() && dir.present
    ensures dir.files == IgnoreAppended(old(dir.files), vcs)
    ensures dir.dirs == RepoDirs(old(dir.files), old(dir.dirs), vcs)
  {
    match vcs {
      case Git =>
        if !dir.Exists(".git") {
          dir.InitRepo(".git");
        }
        dir.Append(".gitignore", IgnoreEntries);
      case Hg =>
        if ".hg" !in dir.dirs {
          dir.InitRepo(".hg");
        }
        dir.Append(".hgignore", IgnoreEntries);
      case NoVcs =>
        dir.CreateRoot();
    }
  }

  /** `mk` */
  method Mk(dir: Directory, name: string, opts: NewOptions, env: Environment) returns (r: Result<()>)
    requires dir.Valid()
    modifies dir
    ensures dir.Valid()
    ensures Effect(r, dir.files, dir.dirs, dir.present)
         == MkEffect(old(dir.files), old(dir.dirs), old(dir.present),
                     Plan(name, opts.bin, opts.sourcefileRelativePath, opts.versionControl), env)
  {
    ghost var plan := Plan(name, opts.bin, opts.sourcefileRelativePath, opts.versionControl);
    var cfg :- GlobalConfig(env.config);
    var vcs := SelectVcs(opts.versionControl, cfg.versionControl, env.inExistingVcsRepo);
    SetUpVcs(dir, vcs);

    var who :- DiscoverAuthor(env.identity);
    var author := ComposeAuthor(cfg.name, cfg.email, who.0, who.1);
    var target := SourceTargetOf(opts.sourcefileRelativePath, opts.bin, name);
    dir.Write("Cargo.toml", ManifestText(name, author, target.specifier));
    dir.WriteIfNotExists(target.path, Stub(opts.bin));
    r := Ok(());
    assert dir.files == Realised(old(dir.files), vcs, MkManifest(plan, cfg, who), target.path, opts.bin);
  }

  /** The checks `new` makes before `mk`: the destination must not exist, and the
      name must be derivable and valid. */
  function NewPlan(present: bool, env: Environment, o: Options): Result<Plan> {
    if present then Err(DestinationExists)
    else
      var name :- GetName(env.fileName, o.name, o.bin);
      var checked :- NameCheck(name);
      Ok(Plan(name, o.bin, o.sourcefileRelativePath, o.versionControl))
  }

  /** `new`: a failed check changes nothing; otherwise the effect is `mk`'s on a
      directory that did not exist, and so was empty. */
  method New(opts: NewOptions, dir: Directory, env: Environment) returns (r: Result<()>)
    requires dir.Valid()
    modifies dir
    ensures dir.Valid()
    ensures match NewPlan(old(dir.present), env, opts.Value())
      case Err(e) => r == Err(e) && unchanged(dir)
      case Ok(plan) =>
        Effect(r, dir.files, dir.dirs, dir.present) == MkEffect(map[], {}, false, plan, env)
  {
    if dir.present {
      return Err(DestinationExists);
    }
    var name :- GetName(env.fileName, opts.name, opts.bin);
    var checked :- CheckName(name);
    r := Mk(dir, name, opts, env);
  }

  /** `new` goes ahead only into a missing destination, with a valid name: the
      explicit one, or the one derived from the directory; the options pass to
      `mk` unchanged. */
  lemma NewPlanChecks(present: bool, env: Environment, o: Options)
    ensures var r := NewPlan(present, env, o);
      && (r.Ok? <==> !present && GetName(env.fileName, o.name, o.bin).Ok?
                     && NameCheck(GetName(env.fileName, o.name, o.bin).value).Ok?)
      && (r.Ok? ==> r.value == Plan(GetName(env.fileName, o.name, o.bin).value, o.bin,
                                    o.sourcefileRelativePath, o.versionControl)
                    && forall k | 0 <= k < |r.value.name| :: IsNameChar(r.value.name[k]))
  {
  }

  /** The checks and decisions `init` makes before `mk`: no `Cargo.toml` yet, a
      derivable and valid name, the survey (unless a source path was given) and
      the VCS detection (unless a VCS was given). */
  function InitPlan(files: map<string, string>, dirs: set<string>, env: Environment, o: Options): Result<Plan> {
    if "Cargo.toml" in files || "Cargo.toml" in dirs then Err(DestinationExists)
    else
      var name :- GetName(env.fileName, o.name, o.bin);
      var checked :- NameCheck(name);
      var s :=
        if o.sourcefileRelativePath.None? then SurveyOf(files, name, o.bin, None)
        else Survey(o.bin, o.sourcefileRelativePath, 0);
      var surveyed :- Verdict(s);
      var vc :-
        if o.versionControl.None? then
          DetectVcs(".git" in files || ".git" in dirs, ".hg" in files || ".hg" in dirs)
        else Ok(o.versionControl);
      Ok(Plan(name, s.bin, s.path, vc))
  }

  /** `init`'s look for `.git` and `.hg`, counting what it finds; the last one
      found becomes the chosen VCS. */
  method DetectExistingVcs(dir: Directory, opts2: NewOptions) returns (r: Result<()>)
    modifies opts2
    ensures var d := DetectVcs(dir.Exists(".git"), dir.Exists(".hg"));
      && (r.Err? <==> d.Err?)
      && (r.Err? ==> r == Err(d.error))
      && (r.Ok? && d.value.Some? ==> opts2.versionControl == d.value)
      && (r.Ok? && d.value.None? ==> opts2.versionControl == old(opts2.versionControl))
    ensures opts2.bin == old(opts2.bin) && opts2.name == old(opts2.name)
    ensures opts2.sourcefileRelativePath == old(opts2.sourcefileRelativePath)
  {
    var numDetectedVcses := 0;
    if dir.Exists(".git") {
      opts2.versionControl := Some(Git);
      numDetectedVcses := numDetectedVcses + 1;
    }
    if dir.Exists(".hg") {
      opts2.versionControl := Some(Hg);
      numDetectedVcses := numDetectedVcses + 1;
    }
    if numDetectedVcses > 1 {
      return Err(BothVcs);
    }
    r := Ok(());
  }

  /** What `init` does to the directory: nothing when a check fails, `mk`'s effect
      otherwise. */
  function InitEffect(files: map<string, string>, dirs: set<string>, present: bool,
                      env: Environment, o: Options): Effect
  {
    match InitPlan(files, dirs, env, o)
    case Err(e) => Effect(Err(e), files, dirs, present)
    case Ok(plan) => MkEffect(files, dirs, present, plan, env)
  }

  /** The part of `init` before `mk`: the manifest check, the name, the survey and
      the VCS detection, filling in a copy of the options. It writes nothing. */
  method PrepareInit(opts: NewOptions, dir: Directory, env: Environment)
      returns (name: string, opts2: NewOptions, r: Result<()>)
    ensures fresh(opts2)
    ensures match InitPlan(dir.files, dir.dirs, env, opts.Value())
      case Err(e) => r == Err(e)
      case Ok(plan) => r.Ok? && plan == Plan(name, opts2.bin, opts2.sourcefileRelativePath, opts2.versionControl)
  {
    ghost var o := opts.Value();
    opts2 := new NewOptions.Clone(opts);
    name := "";
    if dir.Exists("Cargo.toml") {
      return name, opts2, Err(DestinationExists);
    }
    var named := GetName(env.fileName, opts.name, opts.bin);
    if named.Err? {
      return name, opts2, Err(named.error);
    }
    name := named.value;
    r := CheckName(name);
    if r.Err? {
      return;
    }

    ghost var s := if o.sourcefileRelativePath.None? then SurveyOf(dir.files, name, o.bin, None)
                   else Survey(o.bin, o.sourcefileRelativePath, 0);
    InitPlanStages(dir.files, dir.dirs, env, o, name, s);

    if opts2.sourcefileRelativePath.None? {
      r := DetectSourcePathAndType(dir, name, opts2);
      if r.Err? {
        return;
      }
    }

    if opts2.versionControl.None? {
      r := DetectExistingVcs(dir, opts2);
    }
  }

  /** `init`: every check runs before any write, so a failed check changes nothing;
      otherwise the effect is `mk`'s on the updated options. */
  method Init(opts: NewOptions, dir: Directory, env: Environment) returns (r: Result<()>)
    requires dir.Valid()
    modifies dir
    ensures dir.Valid()
    ensures Effect(r, dir.files, dir.dirs, dir.present)
         == InitEffect(old(dir.files), old(dir.dirs), old(dir.present), env, opts.Value())
  {
    var name, opts2, checked := PrepareInit(opts, dir, env);
    if checked.Err? {
      return checked;
    }
    r := Mk(dir, name, opts2, env);
  }

  /** `InitPlan` once the manifest check and the name have passed: the survey's
      verdict, then the VCS detection when no VCS was given. */
  lemma InitPlanStages(files: map<string, string>, dirs: set<string>, env: Environment, o: Options,
                       name: string, s: Survey)
    requires "Cargo.toml" !in files && "Cargo.toml" !in dirs
    requires GetName(env.fileName, o.name, o.bin) == Ok(name)
    requires NameCheck(name).Ok?
    requires s == if o.sourcefileRelativePath.None? then SurveyOf(files, name, o.bin, None)
                  else Survey(o.bin, o.sourcefileRelativePath, 0)
    ensures var d := DetectVcs(".git" in files || ".git" in dirs, ".hg" in files || ".hg" in dirs);
      InitPlan(files, dirs, env, o)
      == if Verdict(s).Err? then Err(MultipleSourceFiles)
         else if o.versionControl.Some? then Ok(Plan(name, s.bin, s.path, o.versionControl))
         else if d.Err? then Err(d.error)
         else Ok(Plan(name, s.bin, s.path, d.value))
  {
  }

  /** `mk` succeeds exactly when the configuration is valid and an author is found. */
  lemma MkSucceedsIffConfigAndAuthor(files: map<string, string>, dirs: set<string>, present: bool,
                                     plan: Plan, env: Environment)
    ensures MkEffect(files, dirs, present, plan, env).outcome.Ok?
            <==> GlobalConfig(env.config).Ok? && DiscoverAuthor(env.identity).Ok?
  {
  }

  /** A successful `mk` leaves the directory in place, with the manifest written
      and the source file present: the stub when nothing was there, the existing
      file untouched otherwise. */
  lemma MkWritesManifestAndSource(files: map<string, string>, dirs: set<string>, present: bool,
                                  plan: Plan, env: Environment)
    requires GlobalConfig(env.config).Ok? && DiscoverAuthor(env.identity).Ok?
    ensures var e := MkEffect(files, dirs, present, plan, env);
      var cfg := GlobalConfig(env.config).value;
      var who := DiscoverAuthor(env.identity).value;
      var ignore := IgnoreFile(ChosenVcs(cfg, plan, env));
      var target := SourceTargetOf(plan.source, plan.bin, plan.name);
      && e.present
      && "Cargo.toml" in e.files
      && e.files["Cargo.toml"]
         == ManifestText(plan.name, ComposeAuthor(cfg.name, cfg.email, who.0, who.1), target.specifier)
      && target.path in e.files
      && (target.path != "Cargo.toml" && Some(target.path) != ignore ==>
            e.files[target.path] == (if target.path in files then files[target.path] else Stub(plan.bin)))
  {
    var cfg := GlobalConfig(env.config).value;
    var who := DiscoverAuthor(env.identity).value;
    var vcs := ChosenVcs(cfg, plan, env);
    var target := SourceTargetOf(plan.source, plan.bin, plan.name);
    var manifest := MkManifest(plan, cfg, who);
    RealisedWritesManifestAndSource(files, vcs, manifest, target.path, plan.bin);
  }

  /** `Realised` holds the manifest, and the source file: kept when it already
      existed, the stub otherwise. */
  lemma RealisedWritesManifestAndSource(files: map<string, string>, vcs: VersionControl, manifest: string,
                                        target: string, bin: bool)
    ensures var r := Realised(files, vcs, manifest, target, bin);
      && "Cargo.toml" in r
      && r["Cargo.toml"] == manifest
      && target in r
      && (target != "Cargo.toml" && Some(target) != IgnoreFile(vcs) ==>
            r[target] == (if target in files then files[target] else Stub(bin)))
  {
    var files1 := IgnoreAppended(files, vcs);
    var files2 := Written(files1, "Cargo.toml", manifest);
    if target != "Cargo.toml" && Some(target) != IgnoreFile(vcs) {
      assert target in files2 <==> target in files;
      assert target in files ==> files2[target] == files1[target] == files[target];
    }
  }

  /** Apart from the manifest, the source file and the ignore file, `Realised`
      adds no file and changes no file's contents. */
  lemma RealisedPreservesOtherFiles(files: map<string, string>, vcs: VersionControl, manifest: string,
                                    target: string, bin: bool)
    ensures var r := Realised(files, vcs, manifest, target, bin);
      && r.Keys == files.Keys + {"Cargo.toml", target} + IgnoreKeys(vcs)
      && forall q | q in files && q != "Cargo.toml" && Some(q) != IgnoreFile(vcs) :: r[q] == files[q]
  {
    RealisedKeys(files, vcs, manifest, target, bin);
    var files1 := IgnoreAppended(files, vcs);
    var files2 := Written(files1, "Cargo.toml", manifest);
    var files3 := WrittenIfAbsent(files2, target, Stub(bin));
    forall q | q in files && q != "Cargo.toml" && Some(q) != IgnoreFile(vcs)
      ensures files3[q] == files[q]
    {
      assert files1[q] == files[q];
      assert files2[q] == files1[q];
    }
  }

  lemma RealisedKeys(files: map<string, string>, vcs: VersionControl, manifest: string,
                     target: string, bin: bool)
    ensures Realised(files, vcs, manifest, target, bin).Keys == files.Keys + {"Cargo.toml", target} + IgnoreKeys(vcs)
  {
    var files1 := IgnoreAppended(files, vcs);
    var files2 := Written(files1, "Cargo.toml", manifest);
    var files3 := WrittenIfAbsent(files2, target, Stub(bin));
    assert files3.Keys == files.Keys + IgnoreKeys(vcs) + {"Cargo.toml"} + {target};
  }

  /** The ignore file ends with the two entries after `Realised`. */
  lemma RealisedAppendsIgnoreEntries(files: map<string, string>, vcs: VersionControl, manifest: string,
                                     target: string, bin: bool)
    requires IgnoreFile(vcs).Some?
    ensures var r := Realised(files, vcs, manifest, target, bin);
      var f := IgnoreFile(vcs).value;
      && f in r
      && r[f] == (if f in files then files[f] else "") + IgnoreEntries
  {
    var f := IgnoreFile(vcs).value;
    var files1 := IgnoreAppended(files, vcs);
    var files2 := Written(files1, "Cargo.toml", manifest);
    assert files2[f] == files1[f];
  }

  /** Apart from the manifest, the source file and the ignore file, a successful
      `mk` adds no file and changes no file's contents; it only adds directories. */
  lemma MkPreservesOtherFiles(files: map<string, string>, dirs: set<string>, present: bool,
                              plan: Plan, env: Environment)
    requires GlobalConfig(env.config).Ok? && DiscoverAuthor(env.identity).Ok?
    ensures var e := MkEffect(files, dirs, present, plan, env);
      var vcs := ChosenVcs(GlobalConfig(env.config).value, plan, env);
      var target := SourceTargetOf(plan.source, plan.bin, plan.name);
      && e.files.Keys == files.Keys + {"Cargo.toml", target.path} + IgnoreKeys(vcs)
      && (forall q | q in files && q != "Cargo.toml" && Some(q) != IgnoreFile(vcs) :: e.files[q] == files[q])
      && e.dirs == RepoDirs(files, dirs, vcs)
      && dirs <= e.dirs
  {
    var cfg := GlobalConfig(env.config).value;
    var who := DiscoverAuthor(env.identity).value;
    var vcs := ChosenVcs(cfg, plan, env);
    var target := SourceTargetOf(plan.source, plan.bin, plan.name);
    var manifest := MkManifest(plan, cfg, who);
    assert MkEffect(files, dirs, present, plan, env)
        == Effect(Ok(()), Realised(files, vcs, manifest, target.path, plan.bin), RepoDirs(files, dirs, vcs), true);
    RealisedPreservesOtherFiles(files, vcs, manifest, target.path, plan.bin);
  }

  /** After a successful `mk` the ignore file of the chosen VCS holds what it held
      before (nothing if it was missing) followed by the two entries. */
  lemma MkAppendsIgnoreEntries(files: map<string, string>, dirs: set<string>, present: bool,
                               plan: Plan, env: Environment)
    requires GlobalConfig(env.config).Ok? && DiscoverAuthor(env.identity).Ok?
    ensures var e := MkEffect(files, dirs, present, plan, env);
      var ignore := IgnoreFile(ChosenVcs(GlobalConfig(env.config).value, plan, env));
      ignore.Some? ==>
        && ignore.value in e.files
        && e.files[ignore.value] == (if ignore.value in files then files[ignore.value] else "") + IgnoreEntries
  {
    var cfg := GlobalConfig(env.config).value;
    var who := DiscoverAuthor(env.identity).value;
    var vcs := ChosenVcs(cfg, plan, env);
    var target := SourceTargetOf(plan.source, plan.bin, plan.name);
    var manifest := MkManifest(plan, cfg, who);
    if IgnoreFile(vcs).Some? {
      RealisedAppendsIgnoreEntries(files, vcs, manifest, target.path, plan.bin);
    }
  }

  /** A failed `mk` never writes the manifest or the source file: a configuration
      error changes nothing, and a missing author leaves only the VCS step done. */
  lemma MkFailureEffects(files: map<string, string>, dirs: set<string>, present: bool,
                         plan: Plan, env: Environment)
    requires MkEffect(files, dirs, present, plan, env).outcome.Err?
    ensures var e := MkEffect(files, dirs, present, plan, env);
      && (GlobalConfig(env.config).Err? ==> e == Effect(Err(GlobalConfig(env.config).error), files, dirs, present))
      && (GlobalConfig(env.config).Ok? ==>
            var vcs := ChosenVcs(GlobalConfig(env.config).value, plan, env);
            && e.outcome == Err(DiscoverAuthor(env.identity).error)
            && e.files == IgnoreAppended(files, vcs)
            && e.dirs == RepoDirs(files, dirs, vcs)
            && e.present)
      && ("Cargo.toml" in e.files <==> "Cargo.toml" in files)
      && ("Cargo.toml" in files ==> e.files["Cargo.toml"] == files["Cargo.toml"])
  {
  }

  /** The manifest `new` and `init` write names the package after the plan. */
  lemma ManifestNamesPackage(files: map<string, string>, dirs: set<string>, present: bool,
                             plan: Plan, env: Environment)
    requires GlobalConfig(env.config).Ok? && DiscoverAuthor(env.identity).Ok?
    ensures var m := MkEffect(files, dirs, present, plan, env).files["Cargo.toml"];
      |PackageHead(plan.name)| <= |m| && m[..|PackageHead(plan.name)|] == PackageHead(plan.name)
  {
    var cfg := GlobalConfig(env.config).value;
    var who := DiscoverAuthor(env.identity).value;
    MkWritesManifestAndSource(files, dirs, present, plan, env);
    ManifestStartsWithPackage(plan.name, ComposeAuthor(cfg.name, cfg.email, who.0, who.1),
                              SourceTargetOf(plan.source, plan.bin, plan.name).specifier);
  }

  /** The manifest `mk` writes (see `MkWritesManifestAndSource`) records the
      composed author: after the authors key comes a TOML string that reads back
      as that author. */
  lemma ManifestRecordsAuthor(plan: Plan, cfg: CargoNewConfig, who: (string, Option<string>))
    ensures QuotedAfter(MkManifest(plan, cfg, who), AuthorsHead(plan.name), ComposeAuthor(cfg.name, cfg.email, who.0, who.1))
  {
    var author := ComposeAuthor(cfg.name, cfg.email, who.0, who.1);
    var spec := SourceTargetOf(plan.source, plan.bin, plan.name).specifier;
    assert MkManifest(plan, cfg, who) == ManifestText(plan.name, author, spec);
  }

  /** `new` refuses an existing destination and `init` an existing manifest. */
  lemma ExistingDestinationRefused(files: map<string, string>, dirs: set<string>, env: Environment, o: Options)
    ensures NewPlan(true, env, o) == Err(DestinationExists)
    ensures "Cargo.toml" in files || "Cargo.toml" in dirs ==> InitPlan(files, dirs, env, o) == Err(DestinationExists)
  {
  }

  /** A valid name never makes `{name}.rs` collide with a path holding a character
      no name may contain (at position `j`, inside the stem). */
  lemma StemAvoids(name: string, p: string, j: nat)
    requires forall k | 0 <= k < |name| :: IsNameChar(name[k])
    requires j + 3 < |p| && !IsNameChar(p[j])
    ensures name + ".rs" != p
  {
    if |name| + 3 == |p| {
      assert (name + ".rs")[j] == name[j];
    }
  }

  /** In the layout `new` leaves, no candidate but the default source file exists. */
  lemma OnlyDefaultCandidate(files: map<string, string>, name: string, bin: bool, vcs: VersionControl)
    requires forall k | 0 <= k < |name| :: IsNameChar(name[k])
    requires name != "main" && name != "lib"
    requires files.Keys == {DefaultSourcePath(bin)} + IgnoreKeys(vcs)
    ensures DefaultSourcePath(bin) in files
    ensures "main.rs" !in files && "lib.rs" !in files
    ensures name + ".rs" !in files && "src/" + name + ".rs" !in files
    ensures bin ==> "src/lib.rs" !in files
    ensures !bin ==> "src/main.rs" !in files
  {
    StemAvoids(name, "src/main.rs", 3);
    StemAvoids(name, "src/lib.rs", 3);
    StemAvoids(name, ".gitignore", 0);
    StemAvoids(name, ".hgignore", 0);
    var under := "src/" + name + ".rs";
    assert under == "src/" + (name + ".rs");
    DistinctStems(name, "main", ".rs");
    DistinctStems(name, "lib", ".rs");
    DistinctUnder("src/", name + ".rs", "main.rs");
    DistinctUnder("src/", name + ".rs", "lib.rs");
    assert under[0] == 's';
  }

  /** The survey of the files `new` leaves (without the manifest): exactly the
      default source file of the kind `new` chose, and maybe an ignore file. */
  lemma SurveyOfFreshLayout(files: map<string, string>, name: string, bin: bool, vcs: VersionControl)
    requires forall k | 0 <= k < |name| :: IsNameChar(name[k])
    requires name != "main" && name != "lib"
    requires files.Keys == {DefaultSourcePath(bin)} + IgnoreKeys(vcs)
    ensures var s := SurveyOf(files, name, false, None);
      Verdict(s).Ok? && s.bin == bin && s.path == Some(DefaultSourcePath(bin))
  {
    OnlyDefaultCandidate(files, name, bin, vcs);
    SurveyClosedForm(files, name, false, None);
    assert CountedFiles(files, name, false) == [DefaultSourcePath(bin)];
  }

  /** `init`'s plan for the layout `new` leaves (without the manifest). */
  lemma InitPlanOfFreshLayout(files: map<string, string>, env: Environment, name: string, bin: bool,
                              vcs: VersionControl)
    requires forall k | 0 <= k < |name| :: IsNameChar(name[k])
    requires name != "main" && name != "lib"
    requires files.Keys == {DefaultSourcePath(bin)} + IgnoreKeys(vcs)
    ensures InitPlan(files, RepoDirs(map[], {}, vcs), env, Options(None, false, Some(name), None))
            == Ok(Plan(name, bin, Some(DefaultSourcePath(bin)), if vcs == NoVcs then None else Some(vcs)))
  {
    SurveyOfFreshLayout(files, name, bin, vcs);
    assert "Cargo.toml" !in files && ".git" !in files && ".hg" !in files;
  }

  /** What a successful `mk` into a missing directory leaves, besides the
      manifest: the default source file, the ignore file, and the repository. */
  lemma FreshLayout(plan: Plan, env: Environment)
    requires plan.source.None?
    requires GlobalConfig(env.config).Ok? && DiscoverAuthor(env.identity).Ok?
    ensures var e := MkEffect(map[], {}, false, plan, env);
      var vcs := ChosenVcs(GlobalConfig(env.config).value, plan, env);
      && (e.files - {"Cargo.toml"}).Keys == {DefaultSourcePath(plan.bin)} + IgnoreKeys(vcs)
      && e.dirs == RepoDirs(map[], {}, vcs)
  {
    var cfg := GlobalConfig(env.config).value;
    var who := DiscoverAuthor(env.identity).value;
    var vcs := ChosenVcs(cfg, plan, env);
    var source := DefaultSourcePath(plan.bin);
    var files := Realised(map[], vcs, MkManifest(plan, cfg, who), source, plan.bin);
    MkSucceeded(map[], {}, false, plan, env);
    RealisedKeys(map[], vcs, MkManifest(plan, cfg, who), source, plan.bin);
    WithoutManifest(files, source, vcs);
  }

  /** A successful `mk` is the VCS step followed by the writes. */
  lemma MkSucceeded(files: map<string, string>, dirs: set<string>, present: bool, plan: Plan, env: Environment)
    requires GlobalConfig(env.config).Ok? && DiscoverAuthor(env.identity).Ok?
    ensures var cfg := GlobalConfig(env.config).value;
      var who := DiscoverAuthor(env.identity).value;
      var vcs := ChosenVcs(cfg, plan, env);
      MkEffect(files, dirs, present, plan, env)
      == Effect(Ok(()), Realised(files, vcs, MkManifest(plan, cfg, who),
                                 SourceTargetOf(plan.source, plan.bin, plan.name).path, plan.bin),
                RepoDirs(files, dirs, vcs), true)
  {
  }

  lemma WithoutManifest(files: map<string, string>, source: string, vcs: VersionControl)
    requires source != "Cargo.toml"
    requires files.Keys == {"Cargo.toml", source} + IgnoreKeys(vcs)
    ensures (files - {"Cargo.toml"}).Keys == {source} + IgnoreKeys(vcs)
  {
    assert "Cargo.toml" !in IgnoreKeys(vcs);
  }

  /** `init` over what `new` created, with the manifest removed again, comes to
      the same decisions: the same kind, the default source file `new` wrote, and
      the VCS `new` set up. */
  lemma InitRecognisesNewLayout(env: Environment, o: Options, plan: Plan)
    requires NewPlan(false, env, o) == Ok(plan)
    requires plan.source.None? && plan.name != "main" && plan.name != "lib"
    requires GlobalConfig(env.config).Ok? && DiscoverAuthor(env.identity).Ok?
    ensures var e := MkEffect(map[], {}, false, plan, env);
      var vcs := ChosenVcs(GlobalConfig(env.config).value, plan, env);
      InitPlan(e.files - {"Cargo.toml"}, e.dirs, env, Options(None, false, Some(plan.name), None))
      == Ok(Plan(plan.name, plan.bin, Some(DefaultSourcePath(plan.bin)), if vcs == NoVcs then None else Some(vcs)))
  {
    var e := MkEffect(map[], {}, false, plan, env);
    var vcs := ChosenVcs(GlobalConfig(env.config).value, plan, env);
    NewPlanChecks(false, env, o);
    FreshLayout(plan, env);
    InitPlanOfFreshLayout(e.files - {"Cargo.toml"}, env, plan.name, plan.bin, vcs);
  }

  /** A project `new` created with no VCS gives `init` nothing to detect, so the
      choice is open again: with no configured VCS and no enclosing repository,
      `init` over that project (its manifest removed) sets up git. */
  lemma InitOverNoVcsProjectSetsUpGit(env: Environment, o: Options, plan: Plan)
    requires NewPlan(false, env, o) == Ok(plan)
    requires plan.source.None? && plan.name != "main" && plan.name != "lib"
    requires GlobalConfig(env.config).Ok? && DiscoverAuthor(env.identity).Ok?
    requires ChosenVcs(GlobalConfig(env.config).value, plan, env) == NoVcs
    requires env.config.vcs.None? && !env.inExistingVcsRepo
    ensures var e := MkEffect(map[], {}, false, plan, env);
      var o' := Options(None, false, Some(plan.name), None);
      && ".git" !in e.dirs
      && InitPlan(e.files - {"Cargo.toml"}, e.dirs, env, o').Ok?
      && InitPlan(e.files - {"Cargo.toml"}, e.dirs, env, o').value.versionControl.None?
      && ".git" in InitEffect(e.files - {"Cargo.toml"}, e.dirs, true, env, o').dirs
  {
    var e := MkEffect(map[], {}, false, plan, env);
    var o' := Options(None, false, Some(plan.name), None);
    FreshLayout(plan, env);
    InitRecognisesNewLayout(env, o, plan);
    var p := InitPlan(e.files - {"Cargo.toml"}, e.dirs, env, o');
    assert ChosenVcs(GlobalConfig(env.config).value, p.value, env) == Git;
    MkSucceeded(e.files - {"Cargo.toml"}, e.dirs, true, p.value, env);
  }
}
