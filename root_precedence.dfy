/** The `root(root_dir, precedence)` decorator of datamate/context.py, apart from
    the state it touches: checking the precedence when the decorator is made,
    checking what it is applied to, and the decision, made afresh at every call,
    whether the decorator's root replaces the current one. */
module RootPrecedence {
  import opened Wrappers
  import opened Settings

  /** 1: lowest, 2: medium, 3: highest. */
  type Precedence = p: int | 1 <= p <= 3 witness 2

  const PrecedenceMessage: string := "Precedence must be 1, 2, or 3"
  const TargetMessage: string := "Decorator can only be applied to functions or classes."

  /** A decorator made by `root`: its candidate root and its precedence. */
  datatype Decorator = Decorator(candidate: Option<Path>, precedence: Precedence)

  /** What a decorator can be applied to, as `inspect` classifies it. */
  datatype Target = FunctionObject | ClassObject | OtherObject

  /** The two kinds of target a decorator accepts. */
  type Wrappable = t: Target | t != OtherObject witness FunctionObject

  /** A function whose calls, or a class whose `__new__` calls, are wrapped. */
  datatype Wrapped = Wrapped(decorator: Decorator, target: Wrappable)

  /** The condition of both wrappers, written as the source writes it. The
      decorator's root is applied when there is one and either the precedence is
      the highest or no root context is active; levels 1 and 2 decide alike. */
  function ShouldApply(candidate: Option<Path>, precedence: Precedence, within: bool): (apply: bool)
    ensures apply <==> candidate.Some? && (precedence == 3 || !within)
  {
    candidate.Some? &&
    (precedence == 3 || (precedence == 2 && !within) || (precedence == 1 && !within))
  }

  /** `root(root_dir, precedence)`: the precedence is checked when the decorator is
      made, before anything is wrapped. */
  function Root(rootDir: Option<Path> := None, precedence: int := 2): (r: Result<Decorator, Error>)
    ensures r.Success? <==> 1 <= precedence <= 3
    ensures r.Success? ==> r.value.candidate == rootDir && r.value.precedence == precedence
    ensures r.Failure? ==> r.error == ValueError(PrecedenceMessage)
  {
    if precedence in [1, 2, 3] then Success(Decorator(rootDir, precedence))
    else Failure(ValueError(PrecedenceMessage))
  }

  /** `decorator(callable)`: a function or a class is wrapped, anything else raises. */
  function Apply(d: Decorator, target: Target): (r: Result<Wrapped, Error>)
    ensures r.Success? <==> (target == FunctionObject || target == ClassObject)
    ensures r.Success? ==> r.value.decorator == d && r.value.target == target
    ensures r.Failure? ==> r.error == ValueError(TargetMessage)
  {
    match target
    case FunctionObject => Success(Wrapped(d, target))
    case ClassObject => Success(Wrapped(d, target))
    case OtherObject => Failure(ValueError(TargetMessage))
  }

  /** Levels 1 and 2 give the same decision in every state. */
  lemma LowAndMediumAgree(candidate: Option<Path>, within: bool)
    ensures ShouldApply(candidate, 1, within) == ShouldApply(candidate, 2, within)
  {
  }

  /** A decorator without a root never applies, whatever its level and the state. */
  lemma NoCandidateNeverApplies(precedence: Precedence, within: bool)
    ensures !ShouldApply(None, precedence, within)
  {
  }

  /** The decision for a decorator with a root, for all three levels inside and
      outside a root context. */
  lemma DecisionTable(p: Path)
    ensures ShouldApply(Some(p), 3, true) && ShouldApply(Some(p), 3, false)
    ensures !ShouldApply(Some(p), 2, true) && ShouldApply(Some(p), 2, false)
    ensures !ShouldApply(Some(p), 1, true) && ShouldApply(Some(p), 1, false)
  {
  }
}
