/** Choosing the version-control system: decoding its name (the `--vcs` argument and
    the `cargo-new.vcs` configuration key), `init`'s detection of `.git` / `.hg`, and
    the four-way choice in `mk`. */
module Vcs {
  import opened Common

  /** The spelling of each kind on the command line and in the configuration. */
  function VcsName(v: VersionControl): string {
    match v
    case Git => "git"
    case Hg => "hg"
    case NoVcs => "none"
  }

  /** The mapping both decoders share: `git`, `hg` and `none`, nothing else. */
  function VcsFromName(s: string): (r: Option<VersionControl>)
    ensures r.Some? <==> s == "git" || s == "hg" || s == "none"
    ensures r.Some? ==> VcsName(r.value) == s
  {
    if s == "git" then Some(Git)
    else if s == "hg" then Some(Hg)
    else if s == "none" then Some(NoVcs)
    else None
  }

  /** `Decodable for VersionControl`: the `--vcs` argument. */
  function DecodeVcs(s: string): (r: Result<VersionControl>)
    ensures r.Err? ==> r.error == UnknownVcs(s)
    ensures r.Ok? <==> s in {"git", "hg", "none"}
    ensures r.Ok? ==> VcsName(r.value) == s
  {
    match VcsFromName(s)
    case Some(v) => Ok(v)
    case None => Err(UnknownVcs(s))
  }

  /** Every kind decodes back from its own name, so decoding is injective on the
      three accepted strings. */
  lemma DecodeVcsName(v: VersionControl)
    ensures DecodeVcs(VcsName(v)) == Ok(v)
  {
  }

  /** The raw `cargo-new.*` configuration values. */
  datatype ConfigValues = ConfigValues(name: Option<string>, email: Option<string>, vcs: Option<string>)

  /** `CargoNewConfig` */
  datatype CargoNewConfig = CargoNewConfig(
    name: Option<string>,
    email: Option<string>,
    versionControl: Option<VersionControl>)

  /** `global_config`: an unset `cargo-new.vcs` is no preference, an unknown one is
      an error; name and email pass through. */
  function GlobalConfig(c: ConfigValues): (r: Result<CargoNewConfig>)
    ensures r.Err? <==> c.vcs.Some? && VcsFromName(c.vcs.value).None?
    ensures r.Err? ==> r.error == InvalidVcsConfig(c.vcs.value)
    ensures r.Ok? ==> r.value.name == c.name && r.value.email == c.email
    ensures r.Ok? ==> (r.value.versionControl.Some? <==> c.vcs.Some?)
    ensures r.Ok? && c.vcs.Some? ==> DecodeVcs(c.vcs.value) == Ok(r.value.versionControl.value)
  {
    match c.vcs
    case None => Ok(CargoNewConfig(c.name, c.email, None))
    case Some(s) =>
      match VcsFromName(s)
      case Some(v) => Ok(CargoNewConfig(c.name, c.email, Some(v)))
      case None => Err(InvalidVcsConfig(s))
  }

  /** The choice `mk` makes: the caller's choice (explicit, or detected by `init`)
      wins; otherwise an enclosing repository means no VCS; otherwise the
      configured default; otherwise git. */
  function SelectVcs(explicit: Option<VersionControl>, configured: Option<VersionControl>,
                     inExistingVcsRepo: bool): (v: VersionControl)
    ensures explicit.Some? ==> v == explicit.value
    ensures explicit.None? && inExistingVcsRepo ==> v == NoVcs
    ensures explicit.None? && !inExistingVcsRepo ==> v == configured.GetOr(Git)
  {
    match (explicit, configured, inExistingVcsRepo)
    case (None, None, false) => Git
    case (None, Some(option), false) => option
    case (Some(option), _, _) => option
    case (_, _, true) => NoVcs
  }

  /** `init`'s look at the directory when no VCS was given: `.git` means git,
      `.hg` means mercurial, both is an error, neither leaves the choice open. */
  function DetectVcs(gitExists: bool, hgExists: bool): (r: Result<Option<VersionControl>>)
    ensures r.Err? <==> gitExists && hgExists
    ensures r.Err? ==> r.error == BothVcs
    ensures r.Ok? ==> (r.value.None? <==> !gitExists && !hgExists)
    ensures r.Ok? && gitExists ==> r.value == Some(Git)
    ensures r.Ok? && hgExists ==> r.value == Some(Hg)
  {
    if gitExists && hgExists then Err(BothVcs)
    else if gitExists then Ok(Some(Git))
    else if hgExists then Ok(Some(Hg))
    else Ok(None)
  }

  /** Whatever `init` detects becomes the explicit choice for `mk`, so the detected
      kind is used even inside an enclosing repository and over the configuration. */
  lemma DetectedVcsIsUsed(gitExists: bool, hgExists: bool, configured: Option<VersionControl>,
                          inExistingVcsRepo: bool)
    requires gitExists != hgExists
    ensures DetectVcs(gitExists, hgExists).Ok?
    ensures SelectVcs(DetectVcs(gitExists, hgExists).value, configured, inExistingVcsRepo)
            == (if gitExists then Git else Hg)
  {
  }
}
