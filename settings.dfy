/** The values held by the ambient settings of datamate/context.py: the seven cells
    of the `context` record, their defaults, the errors the module raises, and the
    checks it makes before writing a cell. */
module Settings {
  import opened Wrappers
  import opened TypeScope

  /** Paths are opaque strings; `Path(".")` is the current directory. */
  type Path = string

  const CurrentDir: Path := "."

  /** The value `set_root_dir` stores: the given path, or the current directory for None. */
  function RootOrCurrent(p: Option<Path>): (r: Path)
    ensures p.Some? ==> r == p.value
    ensures p.None? ==> r == CurrentDir
  {
    if p.Some? then p.value else CurrentDir
  }

  /** Python's `ValueError`, with its message. */
  datatype Error = ValueError(message: string)

  const VerbosityMessage: string := "Verbosity level must be 0, 1, or 2"

  /** The guard of `set_verbosity_level`: levels 0, 1 and 2 pass, anything else
      raises a `ValueError`. */
  function CheckVerbosity(level: int): (r: Outcome<Error>)
    ensures r.Pass? <==> 0 <= level <= 2
    ensures r.Fail? ==> r.error == ValueError(VerbosityMessage)
  {
    if level in [0, 1, 2] then Pass else Fail(ValueError(VerbosityMessage))
  }

  /** The current value of every cell of the `context` record. `scope` is None
      while no override is installed. */
  datatype Cells = Cells(
    enforceConfigMatch: bool,
    checkSizeOnInit: bool,
    verbosityLevel: int,
    deleteIfExists: bool,
    rootDir: Path,
    withinRootContext: bool,
    scope: Option<Scope>)

  /** The defaults each `ContextVar` is declared with. */
  function Defaults(): (c: Cells)
    ensures c.enforceConfigMatch && !c.checkSizeOnInit && !c.deleteIfExists
    ensures c.verbosityLevel == 1 && CheckVerbosity(c.verbosityLevel).Pass?
    ensures c.rootDir == CurrentDir && !c.withinRootContext && c.scope.None?
  {
    Cells(true, false, 1, false, CurrentDir, false, None)
  }

  /** What `ContextVar.set` returns: the value the cell held just before, which
      `ContextVar.reset` puts back. */
  datatype Token<T> = Token(prior: T)
}
