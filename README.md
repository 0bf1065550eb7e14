# datamate context: a Dafny model

This project models `datamate/context.py`, the settings engine that datamate's
`Directory` objects consult. The engine holds seven ambient settings: whether an
existing configuration must match, whether to compute sizes eagerly, the
verbosity level, whether an existing directory may be deleted, the root
directory, whether a root context is active, and the scope override. It also
provides the setters and getters for these settings and two scoped overrides
(`set_root_context` and `delete_if_exists`). Finally, it provides the
`root(root_dir, precedence)` decorator and the scope registry, which maps a
class's qualified name to the class for every transitive subclass of a base
class.

Modules:

- `Wrappers` (`wrappers.dfy`) defines Option, Result and Outcome. They stand
  for Python's None and for a call that either returns or raises.
- `TypeScope` (`type_scope.dfy`) holds the class hierarchy as an explicit
  graph. It has the preorder walk of the recursive `subclasses` generator
  (`Walk`, `WalkAll`) and the dictionary the walk is folded into (`ScopeOf`).
  `GetDefaultScope` is the loop of `get_default_scope`, proved equal to that
  fold. The lemmas say which classes the walk visits and what the dictionary
  holds.
- `Settings` (`settings.dfy`) has the record of cell values (`Cells`) with
  its defaults, the `ValueError` datatype, the verbosity guard, and the token
  that `ContextVar.set` returns.
- `RootPrecedence` (`root_precedence.dfy`) covers the decorator apart from
  state. This is the precedence check when the decorator is created, the check
  of what it is applied to, and the decision taken at each call.
- `ContextStore` (`context_store.dfy`) has the class `Context`. Its fields are
  the cells and its methods are the module's operations.
  - Each method ties `Snapshot()` afterwards to `old(Snapshot())`, which also
    says that every other cell is unchanged.
  - Each scoped override is an Enter/Exit pair. Exit assumes nothing about the
    state, because the body of the `with` block may have changed anything
    before the `finally` runs.
  - A call through a `root` wrapper is a Begin/End pair. End is reached only
    when the wrapped callable returns.
  - `NestedRootContexts` and `RaisingWrappedCall` chain these steps for the
    two behaviours listed below.
  - Four scenario methods at the end of the file follow tests in
    tests/test_context.py: `RootDirScenario` follows lines 25-35,
    `DeleteIfExistsScenario` follows lines 49-58 and adds a nested pair of
    blocks, `VerbosityScenario` follows lines 81-91, and `ScopeScenario`
    follows lines 94-111. `PrecedenceInsideRootContextScenario` and
    `DirectWriteInsideScopesScenario` are extra scenarios with no test behind
    them.
  - `Wrapped` only holds a function or a class (`Wrappable`), the two targets
    `Apply` accepts, so a wrapper call never starts from any other target.
  - `Valid()` says the verbosity level is 0, 1 or 2. The constructor
    establishes it and a successful `SetVerbosityLevel` re-establishes it.
    Every other method that writes a cell neither needs it nor changes whether
    it holds, so an Exit or End also accepts a state the body left invalid.

Behaviour modelled as the code is written:

- `ExitRootContext` lowers `within_root_context` to false. It does not restore
  the value the flag had on entry. So after an inner root context nested in an
  outer one, the root is the outer one but the flag is false. A
  medium-precedence wrapper called there then applies its own root
  (`NestedRootContexts`).
- The `root` wrappers put the saved root back only after a normal return. If
  the wrapped callable raises, the wrapper's root stays in place
  (`RaisingWrappedCall`).
- For a class, only `__new__` is wrapped. So the wrapper's root holds while
  the original `__new__` runs, and is put back before `__init__` runs.
- Precedence levels 1 and 2 give the same decision (`LowAndMediumAgree`). The
  `root` docstring (datamate/context.py:90) promises that at level 1 global
  settings override the decorator; the code does not implement this. Outside a
  root context a level-1 root applies even after a global `set_root_dir`
  (`DecisionTable`).
- `get_scope` returns an installed override even when it is empty. Only None
  falls back to the default.
- The class hierarchy is a parameter `g: TypeGraph`. It gives the direct
  subclasses of each class in `__subclasses__()` order, each class's
  `__qualname__`, and a rank that strictly decreases from a class to its
  subclasses (the hierarchy is acyclic).
  - A class reachable along two paths is visited twice, as in the source.
  - Of two classes with the same qualified name, the one the walk meets last
    wins.
  - `directory` stands for the `Directory` class, which is imported lazily.
- `root(...)` and applying its decorator are pure functions. Their errors
  therefore cannot change any setting.

## Model

| member | source | states |
|---|---|---|
| `Settings.Defaults` | datamate/context.py:37-50 | the seven declared defaults: config match enforced, no size check, verbosity 1 (a legal level), no deletion, root ".", no root context, no scope override |
| `Settings.RootOrCurrent` | datamate/context.py:69-69 | the value `set_root_dir` stores: the given path, or "." for None |
| `ContextStore.Context.constructor` | datamate/context.py:37-50 | every cell starts at its declared default: config match enforced, no size check, verbosity 1, no deletion, root ".", no root context, no scope override |
| `ContextStore.Context.SetRootDir` | datamate/context.py:63-69 | the root becomes the given path, or "." for None; no other cell changes |
| `ContextStore.Context.GetRootDir` | datamate/context.py:72-78 | returns the current root |
| `ContextStore.Context.EnforceConfigMatch` | datamate/context.py:210-220 | the flag reads back as the value given; no other cell changes |
| `ContextStore.Context.CheckSizeOnInit` | datamate/context.py:223-233 | the flag reads back as the value given; no other cell changes |
| `ContextStore.Context.GetCheckSizeOnInit` | datamate/context.py:236-237 | returns the current size-check flag |
| `Settings.CheckVerbosity` | datamate/context.py:250-251 | passes exactly the levels 0, 1 and 2; any other level fails with the ValueError "Verbosity level must be 0, 1, or 2" |
| `ContextStore.Context.SetVerbosityLevel` | datamate/context.py:240-252 | a legal level is stored; an illegal one raises before any write, so every cell keeps its value; the verbosity invariant is preserved |
| `ContextStore.Context.SetScope` | datamate/context.py:255-261 | the override becomes the given mapping, or none for None; no other cell changes |
| `ContextStore.Context.GetScope` | datamate/context.py:264-272 | returns the override when one is installed, otherwise the default scope of Directory computed from the current hierarchy |
| `ContextStore.Context.ResetScope` | datamate/context.py:296-302 | pins the override to the default scope of the given class (Directory for None); no other cell changes |
| `ContextStore.Context.EnterRootContext` | datamate/context.py:180-182 | returns the pre-entry root; inside the block the root is the given path ("." for None) and the root-context flag is true; nothing else changes |
| `ContextStore.Context.ExitRootContext` | datamate/context.py:185-187 | from any post-body state, the root becomes the saved pre-entry root and the flag becomes false (not its prior value); nothing else changes |
| `ContextStore.Context.EnterDeleteIfExists` | datamate/context.py:191-203 | the token holds the pre-entry value; inside the block the flag equals `enable` (default true); nothing else changes |
| `ContextStore.Context.ExitDeleteIfExists` | datamate/context.py:204-207 | from any post-body state, resetting through the token puts back exactly the pre-entry value; nothing else changes |
| `RootPrecedence.ShouldApply` | datamate/context.py:122-127 | the candidate root applies iff there is one and either the precedence is 3 or no root context is active |
| `RootPrecedence.LowAndMediumAgree` | datamate/context.py:143-148 | levels 1 and 2 give the same decision in every state |
| `RootPrecedence.NoCandidateNeverApplies` | datamate/context.py:122-122 | a decorator without a root never applies, whatever its level and the flag |
| `RootPrecedence.DecisionTable` | datamate/context.py:122-148 | the apply/no-apply result of the two wrappers' conditions (122-127 and 143-148) for all three levels, inside and outside a root context: level 3 always applies, levels 1 and 2 only outside one, whatever root was set globally |
| `RootPrecedence.Root` | datamate/context.py:81-112 | succeeds exactly for precedence 1, 2 or 3 and then carries the given root and precedence; any other level fails with "Precedence must be 1, 2, or 3" before anything is wrapped |
| `RootPrecedence.Apply` | datamate/context.py:114-159 | a function or a class is wrapped with this decorator; anything else fails with "Decorator can only be applied to functions or classes." |
| `ContextStore.Context.BeginWrappedCall` | datamate/context.py:119-130 | returns the pre-call root; while the wrapped callable runs the root is the candidate if the decision applies and the pre-call root otherwise; the root-context flag and every other cell are untouched |
| `ContextStore.Context.EndWrappedCall` | datamate/context.py:131-132 | after a normal return the root is the value captured before the call; nothing else changes |
| `ContextStore.RaisingWrappedCall` | datamate/context.py:130-131 | for a wrapped callable that raises without writing any cell, the put-back is skipped: if the decision applies, the root stays the decorator's root; the flag is untouched |
| `ContextStore.NestedRootContexts` | datamate/context.py:185-187 | after an inner exit nested in an outer root context, the root is the outer one but the flag is false, so a precedence-1 or -2 wrapper called there applies its root; after the outer exit every cell is as before except the flag, which is false |
| `TypeScope.Walk` | datamate/context.py:286-287 | the walk starts with the class itself and visits only classes of the hierarchy |
| `TypeScope.WalkAll` | datamate/context.py:287-287 | the walks of a list of subclasses visit only classes of the hierarchy |
| `TypeScope.WalkVisitsDescendants` | datamate/context.py:286-287 | a class is in the walk from `t` iff it is `t` or a transitive subclass of `t` |
| `TypeScope.WalkAllVisitsDescendants` | datamate/context.py:287-287 | a class is in the walks of a list iff it descends from some class of the list |
| `TypeScope.ScopeOf` | datamate/context.py:290-293 | every key of the dictionary maps to a written class with that qualified name, and the last class written is stored under its name |
| `TypeScope.ScopeOfContents` | datamate/context.py:290-293 | the dictionary has a key for the name of every class written, each key maps to a written class with that qualified name, and the last class written under a name wins |
| `TypeScope.BaseOf` | datamate/context.py:289-289 | the base class is the given class, or Directory for None, and is a class of the hierarchy |
| `TypeScope.DefaultScope` | datamate/context.py:275-293 | the value `get_default_scope(cls)` returns has a key for the base class, and every key maps to a class of the hierarchy with that qualified name |
| `TypeScope.DefaultScopeContents` | datamate/context.py:275-293 | the default scope has a key for the base class (Directory for None) and for every transitive subclass; each key maps to a descendant whose qualified name is that key; a later duplicate in the preorder walk wins |
| `TypeScope.GetDefaultScope` | datamate/context.py:289-293 | the loop over the walk yields exactly the fold of the walk into a name-to-class dictionary |

## Left out

- Task isolation between asyncio tasks is left out. In the source it comes from
  Python's `contextvars`, not from this module. One `Context` object stands for
  the settings seen by one task. Spawning a task amounts to copying its
  `Snapshot()` into a new object; the model does not include that copy.
- The instance `__setattr__` guard that refuses to rebind a cell is left out. A
  cell here is a field, and its identity cannot be rebound.
- `ContextVar.reset` raises when a token is used twice or comes from another
  context. This is left out. `delete_if_exists` uses each token exactly once,
  in the context that made it.
- Python reflection is replaced by explicit values. `inspect.isfunction` and
  `inspect.isclass` become `Target`. `__subclasses__` becomes `TypeGraph`.
  `functools.wraps` and the patching of `__new__` become the Begin/End pair
  around a call. The arguments and return value of the wrapped callable are not
  modelled.
- Path normalisation by `pathlib.Path` is left out. Paths are opaque strings, so
  `Path("")` and `Path(".")` are not identified.
- The `Directory` class is not part of this model. Only its role as the default
  base class (`TypeGraph.directory`) is kept.
- Verbosity and precedence are Dafny integers. Python's `in [0, 1, 2]` would
  also accept `True` or `2.0`; that is not modelled.
- setup.py is packaging metadata and is not modelled.
- ContextStore.Context.SetScope, ContextStore.Context.GetScope and ContextStore.Context.ResetScope: `Scope` is an immutable map value, so the sharing of the scope dict by reference is not modelled. In the source, `set_scope` stores the caller's dict itself and `get_scope` hands out that same object. A later in-place write by the caller or by any reader therefore changes the installed override. With no override set, the same write goes into a fresh default dict and is lost. The model captures neither effect.
- RootPrecedence.Apply: the in-place patching of a decorated class is not modelled. The source assigns the wrapper to the class's own `__new__`. So every alias of the class, and every subclass that inherits `__new__`, constructs under the decorator's root and precedence. `Apply` instead returns a new `Wrapped` value and does not capture that aliasing or inheritance.
