// snek/snekconfig.py: the configuration object. Construction checks the
// build folder, checks the format of the seven other folder paths and stores
// them normalised, coerces the SCSS and data options, and only then marks
// the configuration valid.

module Config {
  import opened Wrappers
  import opened PyStrings

  /**
   * A Python argument value, as far as the checks below tell values apart.
   * PyPathLike is a path object that is not a str (a pathlib.Path, or bytes),
   * given by the path it names.
   */
  datatype PyArg =
    | PyStr(s: string)
    | PyPathLike(path: string)
    | PyBool(b: bool)
    | PyInt(i: int)
    | PyFloat(x: real)
    | PyNone
    | PyOther

  /**
   * The path `os.mkdir` and `os.path.isdir` are given: a str or a path-like
   * object names one; any other value makes `os.mkdir` raise TypeError.
   */
  function FsPath(a: PyArg): (r: Option<string>)
    ensures r.Some? <==> a.PyStr? || a.PyPathLike?
    ensures a.PyStr? ==> r == Some(a.s)
    ensures a.PyPathLike? ==> r == Some(a.path)
  {
    match a
    case PyStr(s) => Some(s)
    case PyPathLike(p) => Some(p)
    case _ => None
  }

  /** `a == True`: True compares equal to itself, to 1 and to 1.0. */
  predicate PyEqualsTrue(a: PyArg) {
    a == PyBool(true) || a == PyInt(1) || a == PyFloat(1.0)
  }

  /** The seven folders checked in a loop, in the order of the source's dictionary. */
  datatype PathName = ContentPath | DataPath | TemplatesPath | JsPath | AssetsPath | ScssPath | CssPath

  const PathsToCheck: seq<PathName> := [ContentPath, DataPath, TemplatesPath, JsPath, AssetsPath, ScssPath, CssPath]

  /** Where each folder comes in PathsToCheck: every folder is checked. */
  function CheckOrder(n: PathName): (i: nat)
    ensures i < |PathsToCheck| && PathsToCheck[i] == n
  {
    match n
    case ContentPath => 0
    case DataPath => 1
    case TemplatesPath => 2
    case JsPath => 3
    case AssetsPath => 4
    case ScssPath => 5
    case CssPath => 6
  }

  /** The folder name of the default argument, without its "./". */
  function DefaultFolder(n: PathName): string {
    match n
    case ContentPath => "content"
    case DataPath => "data"
    case TemplatesPath => "templates"
    case JsPath => "js"
    case AssetsPath => "assets"
    case ScssPath => "scss"
    case CssPath => "css"
  }

  /** The attribute name, as it appears in the InvalidPath message. */
  function AttrName(n: PathName): string {
    match n
    case ContentPath => "content_path"
    case DataPath => "data_path"
    case TemplatesPath => "templates_path"
    case JsPath => "js_path"
    case AssetsPath => "assets_path"
    case ScssPath => "scss_path"
    case CssPath => "css_path"
  }

  /** The constructor's keyword arguments. */
  datatype ConfigArgs = ConfigArgs(
    buildPath: PyArg, contentPath: PyArg, dataInBuild: PyArg, dataPath: PyArg,
    templatesPath: PyArg, jsPath: PyArg, assetsPath: PyArg, cssPath: PyArg,
    scssActive: PyArg, scssPath: PyArg, scssOutputStyle: PyArg)

  /** The defaults of the constructor's signature. */
  const DefaultArgs: ConfigArgs := ConfigArgs(
    PyStr("./build"), PyStr("./content"), PyBool(false), PyStr("./data"),
    PyStr("./templates"), PyStr("./js"), PyStr("./assets"), PyStr("./css"),
    PyBool(true), PyStr("./scss"), PyStr("compressed"))

  function ArgFor(args: ConfigArgs, n: PathName): PyArg {
    match n
    case ContentPath => args.contentPath
    case DataPath => args.dataPath
    case TemplatesPath => args.templatesPath
    case JsPath => args.jsPath
    case AssetsPath => args.assetsPath
    case ScssPath => args.scssPath
    case CssPath => args.cssPath
  }

  /** Why construction raised. */
  datatype ConfigError =
    | BuildFolderNotFound(buildPath: string)
    | InvalidPath(what: string, where: string)
    | TypeError(what: string)

  // ---------------------------------------------------------------------------
  // The path format check.

  /**
   * What `re.match` accepts with the folder pattern: a non-empty string whose
   * last character is not '/'.
   */
  predicate PathFormatOk(s: string) {
    |s| > 0 && s[|s| - 1] != '/'
  }

  // The pattern read literally: an optional backslash and any number of
  // groups of non-slashes closed by a slash (together: any text that is empty
  // or ends in '/'), then a non-empty run without '/', then the end; `$` also
  // matches before one final newline.
  ghost predicate WholeMatch(s: string) {
    exists k :: 0 <= k < |s| && LastRunFrom(s, k)
  }

  /** From `k` on there is no '/', and `k` starts the string or follows a '/'. */
  ghost predicate LastRunFrom(s: string, k: int)
    requires 0 <= k <= |s|
  {
    (k == 0 || s[k - 1] == '/') && forall j :: k <= j < |s| ==> s[j] != '/'
  }

  ghost predicate MatchesPathPattern(s: string) {
    WholeMatch(s) || (|s| > 0 && s[|s| - 1] == '\n' && WholeMatch(s[..|s| - 1]))
  }

  /** The literal reading of the pattern and PathFormatOk accept the same strings. */
  lemma PathPatternIsFormat(s: string)
    ensures MatchesPathPattern(s) <==> PathFormatOk(s)
  {
    if PathFormatOk(s) {
      RFindIsLast(s, '/');
      var k := RFind(s, '/') + 1;
      assert k < |s|;
      assert LastRunFrom(s, k);
    }
    if WholeMatch(s) {
      var k :| 0 <= k < |s| && LastRunFrom(s, k);
      assert s[|s| - 1] != '/';
    }
  }

  // ---------------------------------------------------------------------------
  // Option coercion.

  /** `scss_output_style`: kept when one of the three styles, otherwise "compressed". */
  function OutputStyle(a: PyArg): (r: string)
    ensures r == "compressed" || r == "nested" || r == "expanded"
    ensures a.PyStr? && (a.s == "compressed" || a.s == "nested" || a.s == "expanded") ==> r == a.s
    ensures !(a.PyStr? && a.s in ["compressed", "nested", "expanded"]) ==> r == "compressed"
  {
    if a.PyStr? && a.s in ["compressed", "nested", "expanded"] then a.s else "compressed"
  }

  /** Normalising a style that is already normalised changes nothing. */
  lemma OutputStyleIdempotent(a: PyArg)
    ensures OutputStyle(PyStr(OutputStyle(a))) == OutputStyle(a)
  {
  }

  // ---------------------------------------------------------------------------
  // What construction decides, as a function of the arguments.

  /** Every folder from position `from` of PathsToCheck on is a string of the right format. */
  ghost predicate PathsPassFrom(args: ConfigArgs, from: nat, to: nat)
    requires from <= to <= |PathsToCheck|
  {
    forall j :: from <= j < to ==>
      ArgFor(args, PathsToCheck[j]).PyStr? && PathFormatOk(ArgFor(args, PathsToCheck[j]).s)
  }

  /** Folder `i` of PathsToCheck fails with `e`, and every folder from `from` up to it passes. */
  ghost predicate FailsAt(args: ConfigArgs, from: nat, i: nat, e: ConfigError)
    requires from <= i < |PathsToCheck|
  {
    PathsPassFrom(args, from, i) &&
    match ArgFor(args, PathsToCheck[i])
    case PyStr(where) => !PathFormatOk(where) && e == InvalidPath(AttrName(PathsToCheck[i]), where)
    case _ => e == TypeError(AttrName(PathsToCheck[i]))
  }

  /** The first failing folder from position `from` of PathsToCheck on, if any. */
  function CheckPaths(args: ConfigArgs, from: nat): Option<ConfigError>
    requires from <= |PathsToCheck|
    decreases |PathsToCheck| - from
  {
    if from == |PathsToCheck| then None
    else
      var n := PathsToCheck[from];
      match ArgFor(args, n)
      case PyStr(where) =>
        if PathFormatOk(where) then CheckPaths(args, from + 1)
        else Some(InvalidPath(AttrName(n), where))
      case _ => Some(TypeError(AttrName(n)))
  }

  /**
   * The check finds nothing exactly when every folder from `from` on passes,
   * and what it finds is the error of a folder that fails after only passing
   * ones.
   */
  lemma {:induction false} CheckPathsMeaning(args: ConfigArgs, from: nat)
    requires from <= |PathsToCheck|
    ensures CheckPaths(args, from).None? <==> PathsPassFrom(args, from, |PathsToCheck|)
    ensures CheckPaths(args, from).Some? ==>
      exists i :: from <= i < |PathsToCheck| && FailsAt(args, from, i, CheckPaths(args, from).value)
    decreases |PathsToCheck| - from
  {
    if from < |PathsToCheck| {
      var n := PathsToCheck[from];
      var r := CheckPaths(args, from);
      if ArgFor(args, n).PyStr? && PathFormatOk(ArgFor(args, n).s) {
        CheckPathsMeaning(args, from + 1);
        if r.Some? {
          var i :| from + 1 <= i < |PathsToCheck| && FailsAt(args, from + 1, i, r.value);
          assert FailsAt(args, from, i, r.value);
        }
      } else {
        assert FailsAt(args, from, from, r.value);
      }
    }
  }

  /** A folder that is a string of the right format passes the check on to the next one. */
  lemma CheckPathsPass(args: ConfigArgs, from: nat)
    requires from < |PathsToCheck|
    requires ArgFor(args, PathsToCheck[from]).PyStr? && PathFormatOk(ArgFor(args, PathsToCheck[from]).s)
    ensures CheckPaths(args, from) == CheckPaths(args, from + 1)
  {
  }

  /**
   * The first failure of construction, or None when it succeeds. `dirs` is
   * the set of paths that are directories once `os.mkdir(build_path)` was
   * attempted: a build path that is neither a string nor a path object
   * raises TypeError there, one that is no directory BuildFolderNotFound,
   * and only then are the seven folders checked (where `re.match` accepts
   * strings only).
   */
  function Validate(args: ConfigArgs, dirs: set<string>): Option<ConfigError> {
    match FsPath(args.buildPath)
    case None => Some(TypeError("build_path"))
    case Some(build) =>
      if build !in dirs then Some(BuildFolderNotFound(build))
      else CheckPaths(args, 0)
  }

  /**
   * Construction succeeds exactly when the build path names a directory
   * and every folder is a string of the right format; a build path that is
   * neither a string nor a path object fails first, one that is no
   * directory next, and otherwise the error is that of the first failing
   * folder.
   */
  lemma ValidateMeaning(args: ConfigArgs, dirs: set<string>)
    ensures Validate(args, dirs).None? <==>
      FsPath(args.buildPath).Some? && FsPath(args.buildPath).value in dirs &&
      forall n :: ArgFor(args, n).PyStr? && PathFormatOk(ArgFor(args, n).s)
    ensures Validate(args, dirs) == Some(TypeError("build_path")) <==>
      !(args.buildPath.PyStr? || args.buildPath.PyPathLike?)
    ensures (Validate(args, dirs).Some? && Validate(args, dirs).value.BuildFolderNotFound?) <==>
      FsPath(args.buildPath).Some? && FsPath(args.buildPath).value !in dirs
    ensures FsPath(args.buildPath).Some? && FsPath(args.buildPath).value in dirs && Validate(args, dirs).Some? ==>
      exists i :: 0 <= i < |PathsToCheck| && FailsAt(args, 0, i, Validate(args, dirs).value)
  {
    if FsPath(args.buildPath).Some? && FsPath(args.buildPath).value in dirs {
      var r := CheckPaths(args, 0);
      CheckPathsMeaning(args, 0);
      assert PathsPassFrom(args, 0, |PathsToCheck|) <==> forall n :: ArgFor(args, n).PyStr? && PathFormatOk(ArgFor(args, n).s) by {
        if PathsPassFrom(args, 0, |PathsToCheck|) {
          forall n ensures ArgFor(args, n).PyStr? && PathFormatOk(ArgFor(args, n).s) {
            var i := CheckOrder(n);
          }
        }
      }
      assert r != Some(TypeError("build_path")) by {
        if r.Some? {
          var i :| 0 <= i < |PathsToCheck| && FailsAt(args, 0, i, r.value);
          assert AttrName(PathsToCheck[i]) != "build_path";
        }
      }
    }
  }

  // ---------------------------------------------------------------------------
  // The configuration object.

  class SnekConfig {
    var buildPath: string
    var contentPath: string
    var dataPath: string
    var templatesPath: string
    var jsPath: string
    var assetsPath: string
    var scssPath: string
    var cssPath: string
    var scssActive: bool
    var scssOutputStyle: string
    var dataInBuild: bool
    var isValid: bool

    /** The object as construction starts: not valid. */
    constructor Blank()
      ensures !isValid
    {
      isValid := false;
    }

    function PathAttr(n: PathName): string
      reads this`contentPath, this`dataPath, this`templatesPath, this`jsPath
      reads this`assetsPath, this`scssPath, this`cssPath
    {
      match n
      case ContentPath => contentPath
      case DataPath => dataPath
      case TemplatesPath => templatesPath
      case JsPath => jsPath
      case AssetsPath => assetsPath
      case ScssPath => scssPath
      case CssPath => cssPath
    }

    /** `self.__setattr__(what, where)` for one of the seven folders. */
    method SetPath(n: PathName, where: string)
      modifies this`contentPath, this`dataPath, this`templatesPath, this`jsPath
      modifies this`assetsPath, this`scssPath, this`cssPath
      ensures PathAttr(n) == where
      ensures forall m :: m != n ==> PathAttr(m) == old(PathAttr(m))
      ensures buildPath == old(buildPath) && isValid == old(isValid)
    {
      match n
      case ContentPath => contentPath := where;
      case DataPath => dataPath := where;
      case TemplatesPath => templatesPath := where;
      case JsPath => jsPath := where;
      case AssetsPath => assetsPath := where;
      case ScssPath => scssPath := where;
      case CssPath => cssPath := where;
    }

    /**
     * The loop over the seven folders: each is checked in turn and stored
     * normalised; the first that is not a string, or has the wrong format,
     * stops the loop with its error.
     */
    method StorePaths(args: ConfigArgs) returns (err: Option<ConfigError>)
      modifies this`contentPath, this`dataPath, this`templatesPath, this`jsPath
      modifies this`assetsPath, this`scssPath, this`cssPath
      ensures err == CheckPaths(args, 0)
      ensures err.None? ==> PathsFrom(args)
      ensures buildPath == old(buildPath) && isValid == old(isValid)
    {
      var i := 0;
      while i < |PathsToCheck|
        invariant 0 <= i <= |PathsToCheck|
        invariant buildPath == old(buildPath) && isValid == old(isValid)
        invariant CheckPaths(args, 0) == CheckPaths(args, i)
        invariant forall j :: 0 <= j < i ==>
          ArgFor(args, PathsToCheck[j]).PyStr? && PathAttr(PathsToCheck[j]) == NormPath(ArgFor(args, PathsToCheck[j]).s)
      {
        var n := PathsToCheck[i];
        var where := ArgFor(args, n);
        if !where.PyStr? {
          return Some(TypeError(AttrName(n)));
        }
        if !PathFormatOk(where.s) {
          return Some(InvalidPath(AttrName(n), where.s));
        }
        CheckPathsPass(args, i);
        SetPath(n, NormPath(where.s));
        i := i + 1;
      }
      forall n ensures ArgFor(args, n).PyStr? && PathAttr(n) == NormPath(ArgFor(args, n).s) {
        var j := CheckOrder(n);
      }
      return None;
    }

    /** Every folder attribute holds its argument, normalised. */
    ghost predicate PathsFrom(args: ConfigArgs)
      reads this`contentPath, this`dataPath, this`templatesPath, this`jsPath
      reads this`assetsPath, this`scssPath, this`cssPath
    {
      forall n :: ArgFor(args, n).PyStr? && PathAttr(n) == NormPath(ArgFor(args, n).s)
    }

    /** The three options, coerced; the folders are left as they are. */
    method SetOptions(args: ConfigArgs)
      modifies this`scssActive, this`scssOutputStyle, this`dataInBuild
      ensures scssActive == PyEqualsTrue(args.scssActive)
      ensures scssOutputStyle == OutputStyle(args.scssOutputStyle)
      ensures dataInBuild == PyEqualsTrue(args.dataInBuild)
    {
      scssActive := PyEqualsTrue(args.scssActive);
      scssOutputStyle := OutputStyle(args.scssOutputStyle);
      dataInBuild := PyEqualsTrue(args.dataInBuild);
    }

    /** Once the folders are stored: the options, then `is_valid`. */
    method Finish(args: ConfigArgs)
      requires FsPath(args.buildPath) == Some(buildPath) && PathsFrom(args)
      modifies this`scssActive, this`scssOutputStyle, this`dataInBuild, this`isValid
      ensures BuiltFrom(args)
    {
      SetOptions(args);
      isValid := true;
    }

    /** The state a successful construction leaves: every attribute as the arguments say. */
    ghost predicate BuiltFrom(args: ConfigArgs)
      reads this
    {
      FsPath(args.buildPath) == Some(buildPath) &&
      PathsFrom(args) &&
      scssActive == PyEqualsTrue(args.scssActive) &&
      scssOutputStyle == OutputStyle(args.scssOutputStyle) &&
      dataInBuild == PyEqualsTrue(args.dataInBuild) &&
      isValid
    }

    /**
     * `SnekConfig(**args)`: the build folder first, then the seven folders in
     * order, each checked and stored normalised; then the options; `is_valid`
     * becomes true only at the very end. A failure raises the first error.
     */
    static method Create(args: ConfigArgs, dirs: set<string>) returns (r: Result<SnekConfig, ConfigError>)
      ensures r.Ok? <==> Validate(args, dirs).None?
      ensures r.Err? ==> Validate(args, dirs) == Some(r.error)
      ensures r.Ok? ==> fresh(r.value) && r.value.BuiltFrom(args)
    {
      var c := new SnekConfig.Blank();
      var build := FsPath(args.buildPath);
      if build.None? {
        return Err(TypeError("build_path"));
      }
      if build.value !in dirs {
        return Err(BuildFolderNotFound(build.value));
      }
      c.buildPath := build.value;
      var err := c.StorePaths(args);
      if err.Some? {
        return Err(err.value);
      }
      c.Finish(args);
      return Ok(c);
    }
  }

  /**
   * The defaults need only the build folder: construction with no arguments
   * succeeds exactly when "./build" is a directory.
   */
  lemma DefaultsAccepted(dirs: set<string>)
    ensures Validate(DefaultArgs, dirs).None? <==> "./build" in dirs
  {
    assert CheckPaths(DefaultArgs, 0) == None;
  }

  /** The default folders are stored without their "./". */
  lemma DefaultsNormalised()
    ensures forall n :: NormPath(ArgFor(DefaultArgs, n).s) == DefaultFolder(n)
  {
    forall n ensures NormPath(ArgFor(DefaultArgs, n).s) == DefaultFolder(n) {
      assert ArgFor(DefaultArgs, n).s == "./" + DefaultFolder(n);
      NormPathDotSlash(DefaultFolder(n));
    }
  }

  /** A configuration made from the default arguments looks for its templates in "templates". */
  lemma DefaultTemplatesFolder(c: SnekConfig)
    requires c.PathsFrom(DefaultArgs)
    ensures c.templatesPath == "templates"
  {
    DefaultsNormalised();
    assert c.PathAttr(TemplatesPath) == NormPath(ArgFor(DefaultArgs, TemplatesPath).s);
  }
}
