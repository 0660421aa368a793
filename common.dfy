/** Values shared by every part of the `cargo new` / `cargo init` model:
    the version-control kinds, the error kinds and the failure-compatible wrappers. */
module Common {

  /** `VersionControl` of cargo_new.rs: the three outcomes of the VCS choice. */
  datatype VersionControl = Git | Hg | NoVcs

  /** Every way the scaffolding operations can fail. Message texts are not modelled,
      only the kind of failure and the values the message names. */
  datatype Error =
    | DestinationExists                       // `new`: directory exists; `init`: Cargo.toml exists
    | NoProjectName                           // the path has no final component
    | NonUnicodeName                          // the final component is not valid text
    | InvalidCharacter(c: char, name: string) // `check_name` rejected `c` in `name`
    | MultipleSourceFiles                     // the survey counted more than one source file
    | BothVcs                                 // `init` found both .git and .hg
    | UnknownVcs(given: string)               // decoding a `--vcs` argument failed
    | InvalidVcsConfig(given: string)         // `cargo-new.vcs` holds an unknown value
    | UnknownUser(variable: string)           // no author name; names the variable to set

  datatype Option<T> = None | Some(value: T) {
    function GetOr(default: T): T {
      match this
      case Some(v) => v
      case None => default
    }
  }

  datatype Result<T> = Ok(value: T) | Err(error: Error) {
    predicate IsFailure() {
      Err?
    }

    function PropagateFailure<U>(): Result<U>
      requires Err?
    {
      Err(error)
    }

    function Extract(): T
      requires Ok?
    {
      value
    }
  }
}
