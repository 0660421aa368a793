/** The mutable state `cargo new` / `cargo init` work on: the options record that
    `init` clones and then updates, and the project directory that `mk` writes to. */
module ProjectState {
  import opened Common

  /** A snapshot of the options, for the specification functions. */
  datatype Options = Options(
    versionControl: Option<VersionControl>,
    bin: bool,
    name: Option<string>,
    sourcefileRelativePath: Option<string>)

  /** `NewOptions`: `init` works on a clone whose `bin`, `sourcefile_relative_path`
      and `version_control` it updates in place. */
  class NewOptions {
    var versionControl: Option<VersionControl>
    var bin: bool
    var name: Option<string>
    var sourcefileRelativePath: Option<string>

    constructor (o: Options)
      ensures Value() == o
    {
      versionControl := o.versionControl;
      bin := o.bin;
      name := o.name;
      sourcefileRelativePath := o.sourcefileRelativePath;
    }

    /** `opts.clone()` */
    constructor Clone(other: NewOptions)
      ensures Value() == other.Value()
    {
      versionControl := other.versionControl;
      bin := other.bin;
      name := other.name;
      sourcefileRelativePath := other.sourcefileRelativePath;
    }

    function Value(): Options
      reads this
    {
      Options(versionControl, bin, name, sourcefileRelativePath)
    }
  }

  /** The contents of `files` after `paths::append(p, text)`: the file is created
      when absent and `text` goes after whatever it held. */
  function Appended(files: map<string, string>, p: string, text: string): (r: map<string, string>)
    ensures p in r && r[p] == (if p in files then files[p] else "") + text
    ensures r.Keys == files.Keys + {p}
    ensures forall q | q in files && q != p :: r[q] == files[q]
  {
    files[p := (if p in files then files[p] else "") + text]
  }

  /** The contents of `files` after `paths::write(p, text)`: `p` holds exactly `text`. */
  function Written(files: map<string, string>, p: string, text: string): (r: map<string, string>)
    ensures p in r && r[p] == text
    ensures r.Keys == files.Keys + {p}
    ensures forall q | q in files && q != p :: r[q] == files[q]
  {
    files[p := text]
  }

  /** The contents of `files` after `paths::write_if_not_exists(p, text)`:
      an existing file keeps its contents. */
  function WrittenIfAbsent(files: map<string, string>, p: string, text: string): (r: map<string, string>)
    ensures p in r && r[p] == (if p in files then files[p] else text)
    ensures r.Keys == files.Keys + {p}
    ensures forall q | q in files :: r[q] == files[q]
  {
    if p in files then files else files[p := text]
  }

  /** The project directory: regular files by relative path, the directories that
      matter to the model (`.git`, `.hg`) and whether the directory itself exists. */
  class Directory {
    var present: bool
    var files: map<string, string>
    var dirs: set<string>

    /** A directory that does not exist has no entries. */
    ghost predicate Valid()
      reads this
    {
      !present ==> files == map[] && dirs == {}
    }

    constructor (present: bool, files: map<string, string>, dirs: set<string>)
      requires !present ==> files == map[] && dirs == {}
      ensures Valid()
      ensures this.present == present && this.files == files && this.dirs == dirs
    {
      this.present := present;
      this.files := files;
      this.dirs := dirs;
    }

    /** `fs::metadata(path.join(p)).is_ok()`: a file or a directory is there. */
    predicate Exists(p: string)
      reads this
    {
      p in files || p in dirs
    }

    /** `paths::append` */
    method Append(p: string, text: string)
      modifies this
      ensures Valid()
      ensures files == Appended(old(files), p, text)
      ensures dirs == old(dirs) && present
    {
      files := Appended(files, p, text);
      present := true;
    }

    /** `paths::write` */
    method Write(p: string, text: string)
      modifies this
      ensures Valid()
      ensures files == Written(old(files), p, text)
      ensures dirs == old(dirs) && present
    {
      files := Written(files, p, text);
      present := true;
    }

    /** `paths::write_if_not_exists` */
    method WriteIfNotExists(p: string, text: string)
      modifies this
      ensures Valid()
      ensures files == WrittenIfAbsent(old(files), p, text)
      ensures dirs == old(dirs) && present
    {
      files := WrittenIfAbsent(files, p, text);
      present := true;
    }

    /** The visible effect of `GitRepo::init` / `HgRepo::init`: the metadata
        directory `meta` now exists (and so does the project directory). */
    method InitRepo(meta: string)
      modifies this
      ensures Valid()
      ensures dirs == old(dirs) + {meta} && files == old(files) && present
    {
      dirs := dirs + {meta};
      present := true;
    }

    /** `fs::create_dir_all(path)` for the project directory itself. */
    method CreateRoot()
      modifies this
      ensures Valid()
      ensures dirs == old(dirs) && files == old(files) && present
    {
      present := true;
    }
  }
}
