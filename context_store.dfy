/** The ambient settings of datamate/context.py as one object: its fields are the
    cells of the `context` record, its methods the module's setters and getters,
    the two scoped overrides (each an Enter/Exit pair; the code a `with` block runs
    between them may leave the object in any state) and the state changes of a
    call through a `root` wrapper. */
module ContextStore {
  import opened Wrappers
  import opened TypeScope
  import opened Settings
  import opened RootPrecedence

  class Context {
    var enforceConfigMatch: bool
    var checkSizeOnInit: bool
    var verbosityLevel: int
    var deleteIfExists: bool
    var rootDir: Path
    var withinRootContext: bool
    var scope: Option<Scope>

    /** The verbosity level is always one `set_verbosity_level` accepts. */
    predicate Valid()
      reads this
    {
      CheckVerbosity(verbosityLevel).Pass?
    }

    /** The value of every cell. */
    function Snapshot(): (c: Cells)
      reads this
    {
      Cells(enforceConfigMatch, checkSizeOnInit, verbosityLevel, deleteIfExists,
            rootDir, withinRootContext, scope)
    }

    /** Every cell starts at the default of its `ContextVar`. */
    constructor ()
      ensures Valid() && Snapshot() == Defaults()
    {
      enforceConfigMatch := true;
      checkSizeOnInit := false;
      verbosityLevel := 1;
      deleteIfExists := false;
      rootDir := CurrentDir;
      withinRootContext := false;
      scope := None;
    }

    /** `set_root_dir`: the given path, or the current directory for None. */
    method SetRootDir(p: Option<Path>)
      modifies this
      ensures Valid() == old(Valid())
      ensures Snapshot() == old(Snapshot()).(rootDir := RootOrCurrent(p))
      ensures p.Some? ==> rootDir == p.value
      ensures p.None? ==> rootDir == CurrentDir
    {
      rootDir := RootOrCurrent(p);
    }

    /** `get_root_dir`. */
    method GetRootDir() returns (p: Path)
      ensures p == rootDir
    {
      p := rootDir;
    }

    /** `enforce_config_match`: a direct, unscoped write. */
    method EnforceConfigMatch(enforce: bool)
      modifies this
      ensures Valid() == old(Valid())
      ensures Snapshot() == old(Snapshot()).(enforceConfigMatch := enforce)
    {
      enforceConfigMatch := enforce;
    }

    /** `check_size_on_init`: a direct, unscoped write. */
    method CheckSizeOnInit(enforce: bool)
      modifies this
      ensures Valid() == old(Valid())
      ensures Snapshot() == old(Snapshot()).(checkSizeOnInit := enforce)
    {
      checkSizeOnInit := enforce;
    }

    /** `get_check_size_on_init`. */
    method GetCheckSizeOnInit() returns (b: bool)
      ensures b == checkSizeOnInit
    {
      b := checkSizeOnInit;
    }

    /** `set_verbosity_level`: a level outside 0..2 raises before anything is
        written, so the old level stays. */
    method SetVerbosityLevel(level: int) returns (r: Outcome<Error>)
      modifies this
      ensures r.Pass? ==> Valid()
      ensures r.Fail? ==> Valid() == old(Valid())
      ensures r == CheckVerbosity(level)
      ensures r.Pass? ==> Snapshot() == old(Snapshot()).(verbosityLevel := level)
      ensures r.Fail? ==> Snapshot() == old(Snapshot())
    {
      r := CheckVerbosity(level);
      if r.Fail? {
        return;
      }
      verbosityLevel := level;
    }

    /** `set_scope`: None removes the override. */
    method SetScope(s: Option<Scope>)
      modifies this
      ensures Valid() == old(Valid())
      ensures Snapshot() == old(Snapshot()).(scope := s)
    {
      scope := s;
    }

    /** `get_scope`: the override when one is installed (an empty one included),
        otherwise the default scope of `Directory`, computed afresh from the
        current class hierarchy `g`. */
    method GetScope(g: TypeGraph) returns (s: Scope)
      requires g.Valid()
      ensures scope.Some? ==> s == scope.value
      ensures scope.None? ==> s == DefaultScope(g, None)
    {
      if scope.Some? {
        s := scope.value;
      } else {
        s := GetDefaultScope(g);
      }
    }

    /** `reset_scope(cls)`: pins the override to a snapshot of the default scope. */
    method ResetScope(g: TypeGraph, cls: Option<TypeId> := None)
      requires g.Valid() && (cls.Some? ==> cls.value in g.subclasses)
      modifies this
      ensures Valid() == old(Valid())
      ensures Snapshot() == old(Snapshot()).(scope := Some(DefaultScope(g, cls)))
    {
      var s := GetDefaultScope(g, cls);
      SetScope(Some(s));
    }

    /** Entering `with set_root_context(p)`: the old root is saved, the root becomes
        `p` (the current directory for None) and the flag is raised. */
    method EnterRootContext(p: Option<Path> := None) returns (saved: Path)
      modifies this
      ensures Valid() == old(Valid())
      ensures saved == old(rootDir)
      ensures Snapshot() == old(Snapshot()).(rootDir := RootOrCurrent(p), withinRootContext := true)
    {
      saved := GetRootDir();
      SetRootDir(p);
      withinRootContext := true;
    }

    /** Leaving `with set_root_context(...)`, normally or by an exception: the saved
        root comes back and the flag is lowered to false, not to the value it had
        on entry. */
    method ExitRootContext(saved: Path)
      modifies this
      ensures Valid() == old(Valid())
      ensures Snapshot() == old(Snapshot()).(rootDir := saved, withinRootContext := false)
    {
      SetRootDir(Some(saved));
      withinRootContext := false;
    }

    /** Entering `with delete_if_exists(enable)`. */
    method EnterDeleteIfExists(enable: bool := true) returns (token: Token<bool>)
      modifies this
      ensures Valid() == old(Valid())
      ensures token.prior == old(deleteIfExists)
      ensures Snapshot() == old(Snapshot()).(deleteIfExists := enable)
    {
      token := Token(deleteIfExists);
      deleteIfExists := enable;
    }

    /** Leaving `with delete_if_exists(...)`, normally or by an exception: the token
        resets the cell to what it held just before the matching enter. */
    method ExitDeleteIfExists(token: Token<bool>)
      modifies this
      ensures Valid() == old(Valid())
      ensures Snapshot() == old(Snapshot()).(deleteIfExists := token.prior)
    {
      deleteIfExists := token.prior;
    }

    /** A call through a `root` wrapper, up to the call of the wrapped function (or
        of the class's original `__new__`): the current root is saved and replaced
        by the decorator's root when the decision says so. The flag is only read. */
    method BeginWrappedCall(w: Wrapped) returns (saved: Path)
      modifies this
      ensures Valid() == old(Valid())
      ensures saved == old(rootDir)
      ensures ShouldApply(w.decorator.candidate, w.decorator.precedence, old(withinRootContext)) ==>
                Snapshot() == old(Snapshot()).(rootDir := w.decorator.candidate.value)
      ensures !ShouldApply(w.decorator.candidate, w.decorator.precedence, old(withinRootContext)) ==>
                Snapshot() == old(Snapshot())
    {
      saved := GetRootDir();
      var within := withinRootContext;
      if ShouldApply(w.decorator.candidate, w.decorator.precedence, within) {
        SetRootDir(w.decorator.candidate);
      }
    }

    /** The rest of the call, reached only when the wrapped callable returns: the
        saved root is put back. When the wrapped callable raises, this step does
        not happen. */
    method EndWrappedCall(saved: Path)
      modifies this
      ensures Valid() == old(Valid())
      ensures Snapshot() == old(Snapshot()).(rootDir := saved)
    {
      SetRootDir(Some(saved));
    }
  }

  /** Default root, a path set, then None restoring the current directory. */
  method RootDirScenario(p: Path) {
    var ctx := new Context();
    var r := ctx.GetRootDir();
    assert r == CurrentDir;
    ctx.SetRootDir(Some(p));
    r := ctx.GetRootDir();
    assert r == p;
    ctx.SetRootDir(None);
    r := ctx.GetRootDir();
    assert r == CurrentDir;
  }

  /** Two nested root contexts, entered from any state, with a wrapper of a
      precedence below 3 called between the inner exit and the outer exit. After
      the inner exit the root is the outer one but the flag is already false, so
      the wrapper applies its own root; after the outer exit the root is the one
      before both, and the flag is false whatever it was before. */
  method NestedRootContexts(ctx: Context, outer: Path, inner: Path, w: Wrapped)
      returns (rootAfterInner: Path, flagAfterInner: bool, rootInCall: Path)
    requires w.decorator.candidate.Some? && w.decorator.precedence < 3
    modifies ctx
    ensures ctx.Valid() == old(ctx.Valid())
    ensures rootAfterInner == outer && !flagAfterInner
    ensures rootInCall == w.decorator.candidate.value
    ensures ctx.Snapshot() == old(ctx.Snapshot()).(withinRootContext := false)
  {
    var savedOuter := ctx.EnterRootContext(Some(outer));
    var savedInner := ctx.EnterRootContext(Some(inner));
    assert ctx.rootDir == inner && ctx.withinRootContext;
    ctx.ExitRootContext(savedInner);
    rootAfterInner, flagAfterInner := ctx.rootDir, ctx.withinRootContext;

    var savedCall := ctx.BeginWrappedCall(w);
    rootInCall := ctx.GetRootDir();
    ctx.EndWrappedCall(savedCall);
    assert ctx.rootDir == outer;

    ctx.ExitRootContext(savedOuter);
  }

  /** Inside a root context, only a highest-precedence wrapper applies its root. */
  method PrecedenceInsideRootContextScenario(scoped: Path, own: Path) {
    var ctx := new Context();
    var saved := ctx.EnterRootContext(Some(scoped));
    var medium := Apply(Root(Some(own)).value, ClassObject).value;
    var s := ctx.BeginWrappedCall(medium);
    assert ctx.rootDir == scoped;
    ctx.EndWrappedCall(s);
    var highest := Apply(Root(Some(own), 3).value, ClassObject).value;
    s := ctx.BeginWrappedCall(highest);
    assert ctx.rootDir == own && ctx.withinRootContext;
    ctx.EndWrappedCall(s);
    assert ctx.rootDir == scoped;
    ctx.ExitRootContext(saved);
  }

  /** A call through a wrapper whose wrapped callable raises without writing any
      cell: only the first half of the wrapper runs, so when the decision applies the wrapper's root stays in
      place after the call instead of the saved one. */
  method RaisingWrappedCall(ctx: Context, w: Wrapped) returns (saved: Path)
    modifies ctx
    ensures ctx.Valid() == old(ctx.Valid())
    ensures saved == old(ctx.rootDir)
    ensures ShouldApply(w.decorator.candidate, w.decorator.precedence, old(ctx.withinRootContext)) ==>
              ctx.rootDir == w.decorator.candidate.value
    ensures ctx.withinRootContext == old(ctx.withinRootContext)
  {
    saved := ctx.BeginWrappedCall(w);
    // the wrapped callable raises here, so EndWrappedCall is never reached
  }

  /** A block body that writes a cell directly, bypassing `set_verbosity_level`,
      still reaches both `finally` steps. */
  method DirectWriteInsideScopesScenario(p: Path) {
    var ctx := new Context();
    var saved := ctx.EnterRootContext(Some(p));
    var token := ctx.EnterDeleteIfExists();
    ctx.verbosityLevel := 7;
    ctx.ExitDeleteIfExists(token);
    ctx.ExitRootContext(saved);
    assert ctx.rootDir == CurrentDir && !ctx.deleteIfExists && !ctx.withinRootContext;
    assert !ctx.Valid();
  }

  /** `delete_if_exists()` enables deletion for the block, `delete_if_exists(False)`
      disables it, and each exit restores the previous value. */
  method DeleteIfExistsScenario() {
    var ctx := new Context();
    assert !ctx.deleteIfExists;
    var token := ctx.EnterDeleteIfExists();
    assert ctx.deleteIfExists;
    ctx.ExitDeleteIfExists(token);
    assert !ctx.deleteIfExists;
    var outer := ctx.EnterDeleteIfExists(true);
    var inner := ctx.EnterDeleteIfExists(false);
    assert !ctx.deleteIfExists;
    ctx.ExitDeleteIfExists(inner);
    assert ctx.deleteIfExists;
    ctx.ExitDeleteIfExists(outer);
    assert ctx.Snapshot() == Defaults();
  }

  /** Levels 0 and 2 are stored; level 3 raises and keeps 2. */
  method VerbosityScenario() {
    var ctx := new Context();
    assert ctx.verbosityLevel == 1;
    var r := ctx.SetVerbosityLevel(0);
    assert r.Pass? && ctx.verbosityLevel == 0;
    r := ctx.SetVerbosityLevel(2);
    assert ctx.verbosityLevel == 2;
    r := ctx.SetVerbosityLevel(3);
    assert r == Fail(ValueError(VerbosityMessage)) && ctx.verbosityLevel == 2;
  }

  /** A custom scope is returned as installed; after `reset_scope` and after
      `set_scope(None)` the default scope is returned. */
  method ScopeScenario(g: TypeGraph, custom: Scope)
    requires g.Valid()
  {
    var ctx := new Context();
    var s := ctx.GetScope(g);
    DefaultScopeContents(g, None);
    assert g.qualname[g.directory] in s;
    ctx.SetScope(Some(custom));
    s := ctx.GetScope(g);
    assert s == custom;
    ctx.ResetScope(g);
    s := ctx.GetScope(g);
    assert s == DefaultScope(g, None);
    ctx.SetScope(None);
    s := ctx.GetScope(g);
    assert s == DefaultScope(g, None);
  }
}
