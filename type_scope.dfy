/** The registry that resolves a serialized "type" tag to a class: a preorder walk
    over a base class and all its transitive subclasses, folded into a map from
    qualified name to class (`get_default_scope` in datamate/context.py). */
module TypeScope {
  import opened Wrappers

  /** A class of the program, by identity. */
  type TypeId = nat

  /** The `Dict[str, type]` that `get_scope` hands out. */
  type Scope = map<string, TypeId>

  /** The class hierarchy as the interpreter sees it: the direct subclasses of each
      class in registration order (`__subclasses__()`), each class's `__qualname__`,
      and a rank that strictly decreases from a class to each of its subclasses (a
      subclass is always created after its bases, so creation order reversed is one
      such rank). `directory` is the library's `Directory` class. */
  datatype TypeGraph = TypeGraph(
    subclasses: map<TypeId, seq<TypeId>>,
    qualname: map<TypeId, string>,
    rank: map<TypeId, nat>,
    directory: TypeId)
  {
    predicate Valid() {
      && directory in subclasses
      && (forall t :: t in subclasses ==> t in qualname && t in rank)
      && (forall t, i :: t in subclasses && 0 <= i < |subclasses[t]| ==>
            subclasses[t][i] in subclasses && rank[subclasses[t][i]] < rank[t])
    }
  }

  /** `subclasses(t)`: `t` itself, then the walk of each direct subclass in turn. */
  function Walk(g: TypeGraph, t: TypeId): (r: seq<TypeId>)
    requires g.Valid() && t in g.subclasses
    ensures |r| > 0 && r[0] == t
    ensures forall i :: 0 <= i < |r| ==> r[i] in g.subclasses
    decreases g.rank[t], 1
  {
    [t] + WalkAll(g, g.subclasses[t], g.rank[t])
  }

  /** The walks of `ts`, one after the other; `bound` exceeds the rank of every
      class in `ts` and only serves termination. */
  function WalkAll(g: TypeGraph, ts: seq<TypeId>, bound: nat): (r: seq<TypeId>)
    requires g.Valid()
    requires forall i :: 0 <= i < |ts| ==> ts[i] in g.subclasses && g.rank[ts[i]] < bound
    ensures forall i :: 0 <= i < |r| ==> r[i] in g.subclasses
    decreases bound, 0, |ts|
  {
    if ts == [] then [] else Walk(g, ts[0]) + WalkAll(g, ts[1..], bound)
  }

  /** `u` is `t` or a direct or indirect subclass of `t`. */
  ghost predicate Descends(g: TypeGraph, t: TypeId, u: TypeId)
    requires g.Valid() && t in g.subclasses
    decreases g.rank[t]
  {
    t == u || exists i :: 0 <= i < |g.subclasses[t]| && Descends(g, g.subclasses[t][i], u)
  }

  /** The walk from `t` visits exactly `t` and its transitive subclasses. */
  lemma {:induction false} WalkVisitsDescendants(g: TypeGraph, t: TypeId, u: TypeId)
    requires g.Valid() && t in g.subclasses
    ensures u in Walk(g, t) <==> Descends(g, t, u)
    decreases g.rank[t], 1
  {
    WalkAllVisitsDescendants(g, g.subclasses[t], g.rank[t], u);
  }

  lemma {:induction false} WalkAllVisitsDescendants(g: TypeGraph, ts: seq<TypeId>, bound: nat, u: TypeId)
    requires g.Valid()
    requires forall i :: 0 <= i < |ts| ==> ts[i] in g.subclasses && g.rank[ts[i]] < bound
    ensures u in WalkAll(g, ts, bound) <==> exists i :: 0 <= i < |ts| && Descends(g, ts[i], u)
    decreases bound, 0, |ts|
  {
    if ts != [] {
      WalkVisitsDescendants(g, ts[0], u);
      WalkAllVisitsDescendants(g, ts[1..], bound, u);
      if exists i :: 0 <= i < |ts| && Descends(g, ts[i], u) {
        var i :| 0 <= i < |ts| && Descends(g, ts[i], u);
        if i > 0 {
          assert ts[1..][i - 1] == ts[i];
        }
      }
      if exists i :: 0 <= i < |ts| - 1 && Descends(g, ts[1..][i], u) {
        var i :| 0 <= i < |ts| - 1 && Descends(g, ts[1..][i], u);
        assert ts[i + 1] == ts[1..][i];
      }
    }
  }

  /** The dictionary the loop of `get_default_scope` builds from a walk: each class
      in turn is written under its qualified name, so a later class overwrites an
      earlier one of the same name. */
  function ScopeOf(g: TypeGraph, ts: seq<TypeId>): (r: Scope)
    requires forall i :: 0 <= i < |ts| ==> ts[i] in g.qualname
    ensures forall k :: k in r ==> r[k] in ts && g.qualname[r[k]] == k
    ensures |ts| > 0 ==> g.qualname[ts[|ts| - 1]] in r && r[g.qualname[ts[|ts| - 1]]] == ts[|ts| - 1]
  {
    if ts == [] then map[]
    else ScopeOf(g, ts[..|ts| - 1])[g.qualname[ts[|ts| - 1]] := ts[|ts| - 1]]
  }

  /** Position `i` holds the last class of `ts` with its qualified name. */
  ghost predicate LastOfItsName(g: TypeGraph, ts: seq<TypeId>, i: int)
    requires forall j :: 0 <= j < |ts| ==> ts[j] in g.qualname
    requires 0 <= i < |ts|
  {
    forall j :: i < j < |ts| ==> g.qualname[ts[j]] != g.qualname[ts[i]]
  }

  /** What the dictionary holds: a key per name in the walk, each mapping to a class
      of the walk with that name, and the last such class winning. */
  lemma {:induction false} ScopeOfContents(g: TypeGraph, ts: seq<TypeId>)
    requires forall i :: 0 <= i < |ts| ==> ts[i] in g.qualname
    ensures forall i :: 0 <= i < |ts| ==> g.qualname[ts[i]] in ScopeOf(g, ts)
    ensures forall k :: k in ScopeOf(g, ts) ==> ScopeOf(g, ts)[k] in ts && g.qualname[ScopeOf(g, ts)[k]] == k
    ensures forall i :: 0 <= i < |ts| && LastOfItsName(g, ts, i) ==> ScopeOf(g, ts)[g.qualname[ts[i]]] == ts[i]
  {
    if ts != [] {
      var n := |ts| - 1;
      var front := ts[..n];
      var last := g.qualname[ts[n]];
      ScopeOfContents(g, front);
      var r, rf := ScopeOf(g, ts), ScopeOf(g, front);
      assert r == rf[last := ts[n]];
      forall i | 0 <= i < |ts|
        ensures g.qualname[ts[i]] in r
      {
        if i < n {
          assert ts[i] == front[i];
        }
      }
      forall i | 0 <= i < |ts| && LastOfItsName(g, ts, i)
        ensures r[g.qualname[ts[i]]] == ts[i]
      {
        if i < n {
          assert ts[i] == front[i];
          assert g.qualname[ts[i]] != last;
          assert LastOfItsName(g, front, i) by {
            forall j | i < j < n
              ensures g.qualname[front[j]] != g.qualname[front[i]]
            {
              assert front[j] == ts[j];
            }
          }
        }
      }
    }
  }

  /** `cls or Directory`. */
  function BaseOf(g: TypeGraph, cls: Option<TypeId>): (base: TypeId)
    ensures cls.Some? ==> base == cls.value
    ensures cls.None? ==> base == g.directory
    ensures g.Valid() && (cls.Some? ==> cls.value in g.subclasses) ==> base in g.subclasses
  {
    if cls.Some? then cls.value else g.directory
  }

  /** The value `get_default_scope(cls)` returns. */
  function DefaultScope(g: TypeGraph, cls: Option<TypeId>): (r: Scope)
    requires g.Valid() && (cls.Some? ==> cls.value in g.subclasses)
    ensures g.qualname[BaseOf(g, cls)] in r
    ensures forall k :: k in r ==> r[k] in g.subclasses && g.qualname[r[k]] == k
  {
    var w := Walk(g, BaseOf(g, cls));
    ScopeOfContents(g, w);
    ScopeOf(g, w)
  }

  /** The default scope has a key for the base class and for each of its transitive
      subclasses; each key maps to a descendant with that qualified name, and where
      two descendants share a name the one the walk meets last wins. */
  lemma DefaultScopeContents(g: TypeGraph, cls: Option<TypeId>)
    requires g.Valid() && (cls.Some? ==> cls.value in g.subclasses)
    ensures g.qualname[BaseOf(g, cls)] in DefaultScope(g, cls)
    ensures forall u :: Descends(g, BaseOf(g, cls), u) ==>
              u in g.qualname && g.qualname[u] in DefaultScope(g, cls)
    ensures forall k :: k in DefaultScope(g, cls) ==>
              Descends(g, BaseOf(g, cls), DefaultScope(g, cls)[k]) &&
              g.qualname[DefaultScope(g, cls)[k]] == k
    ensures forall i :: 0 <= i < |Walk(g, BaseOf(g, cls))| && LastOfItsName(g, Walk(g, BaseOf(g, cls)), i) ==>
              g.qualname[Walk(g, BaseOf(g, cls))[i]] in DefaultScope(g, cls) &&
              DefaultScope(g, cls)[g.qualname[Walk(g, BaseOf(g, cls))[i]]] == Walk(g, BaseOf(g, cls))[i]
  {
    var base := BaseOf(g, cls);
    var w := Walk(g, base);
    ScopeOfContents(g, w);
    forall u | Descends(g, base, u)
      ensures u in g.qualname && g.qualname[u] in DefaultScope(g, cls)
    {
      WalkVisitsDescendants(g, base, u);
      var i :| 0 <= i < |w| && w[i] == u;
    }
    forall k | k in DefaultScope(g, cls)
      ensures Descends(g, base, DefaultScope(g, cls)[k])
    {
      WalkVisitsDescendants(g, base, DefaultScope(g, cls)[k]);
    }
  }

  /** `get_default_scope(cls)`: walk the hierarchy from `cls or Directory` and write
      each class under its qualified name. */
  method GetDefaultScope(g: TypeGraph, cls: Option<TypeId> := None) returns (scope: Scope)
    requires g.Valid() && (cls.Some? ==> cls.value in g.subclasses)
    ensures scope == DefaultScope(g, cls)
  {
    var base := BaseOf(g, cls);
    var walk := Walk(g, base);
    scope := map[];
    for i := 0 to |walk|
      invariant scope == ScopeOf(g, walk[..i])
    {
      assert walk[..i + 1][..i] == walk[..i];
      scope := scope[g.qualname[walk[i]] := walk[i]];
    }
    assert walk[..|walk|] == walk;
  }
}
