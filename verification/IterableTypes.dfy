/** The element type of an Iterable: the search up the hierarchy substitutes type arguments only at the top
    level of each step and drops every wildcard, and the erasure it finds is still that of the fully substituted
    argument, except where a `? super` is dropped. */
module IterableTypes {
  import opened Options

  type Class = nat
  type Param = nat

  datatype Kind = Unbounded | Extends | Super

  datatype Type =
    | Simple(cls: Class)
    | Generic(pt: ParamType)
    | Parameter(param: Param)
    | Wildcard(kind: Kind, bound: Option<Type>)
    | Array(component: Type)

  datatype ParamType = ParamType(generic: Class, args: seq<Type>)

  /** A generic class or interface: its type parameters, and the parameterized types it extends and
      implements; None where the supertype is not parameterized. */
  datatype Decl = Decl(params: seq<Param>, superclass: Option<ParamType>, interfaces: seq<Option<ParamType>>)

  /** All declarations, and the first bound of each bounded type parameter. */
  datatype World = World(decls: seq<Decl>, bounds: map<Param, Class>)

  const ITERABLE: Class := 0

  function Present(types: seq<Option<ParamType>>): seq<ParamType> {
    if types == [] then [] else (if types[0].Some? then [types[0].value] else []) + Present(types[1..])
  }

  /** The parameterized supertypes of class g, in the order of the search. */
  function Supers(w: World, g: Class): seq<ParamType> {
    if g >= |w.decls| then [] else Present([w.decls[g].superclass] + w.decls[g].interfaces)
  }

  function Params(w: World, g: Class): seq<Param> {
    if g < |w.decls| then w.decls[g].params else []
  }

  /** The hierarchy is acyclic: declarations can be numbered so that supertypes come first. */
  predicate Acyclic(w: World) {
    forall g :: 0 <= g < |w.decls| ==> forall s :: s in Supers(w, g) ==> s.generic < g
  }

  function ErasedType(w: World, p: Param): Option<Class> {
    if p in w.bounds then Some(w.bounds[p]) else None
  }

  /** The erasure, None standing for Object. */
  function Erasure(w: World, t: Type): Option<Class> {
    match t
    case Simple(c) => Some(c)
    case Generic(pt) => Some(pt.generic)
    case Parameter(p) => ErasedType(w, p)
    case Wildcard(kind, bound) => if kind == Extends && bound.Some? then Erasure(w, bound.value) else None
    case Array(_) => None
  }

  function IndexOf(params: seq<Param>, p: Param): (i: nat)
    ensures i <= |params| && (i < |params| ==> params[i] == p) && (i == |params| ==> p !in params)
  {
    if params == [] || params[0] == p then 0 else 1 + IndexOf(params[1..], p)
  }

  // ---- The search

  /** SubstituteTypeArgument: a type parameter of the concrete type's class becomes its argument, without
      its wildcard; other types are left as they are, whatever they contain. */
  function Substitute(w: World, concrete: ParamType, t: Type): Option<Type> {
    match t
    case Wildcard(_, bound) =>
      var b := if bound.Some? then Substitute(w, concrete, bound.value) else None;
      if b.Some? then b else Some(t)
    case Parameter(p) =>
      var params := Params(w, concrete.generic);
      var i := IndexOf(params, p);
      if i < |params| && i < |concrete.args| then
        var arg := concrete.args[i];
        if arg.Wildcard? && arg.bound.Some? then arg.bound else Some(arg)
      else if ErasedType(w, p).Some? then Some(Simple(ErasedType(w, p).value))
      else None
    case Simple(_) => Some(t)
    case Generic(_) => Some(t)
    case Array(_) => Some(t)
  }

  /** FindIterableTypeArgument. */
  function Find(w: World, pt: ParamType): Option<Type>
    requires Acyclic(w)
  {
    if pt.generic == ITERABLE then
      if pt.args == [] then None
      else if pt.args[0].Wildcard? then pt.args[0].bound
      else Some(pt.args[0])
    else Search(w, pt, Supers(w, pt.generic))
  }

  /** The first supertype that yields a result. */
  function Search(w: World, pt: ParamType, supers: seq<ParamType>): Option<Type>
    requires Acyclic(w) && forall s :: s in supers ==> s in Supers(w, pt.generic)
    decreases pt.generic, 1, |supers|
  {
    if supers == [] then None else
      var r := FindInSuper(w, pt, supers[0]);
      if r.Some? then r else Search(w, pt, supers[1..])
  }

  /** FindIterableTypeArgumentInSuper: what a supertype yields, in terms of the concrete type's arguments. */
  function FindInSuper(w: World, concrete: ParamType, s: ParamType): Option<Type>
    requires Acyclic(w) && s in Supers(w, concrete.generic)
    decreases concrete.generic, 0
  {
    if s.generic == ITERABLE then
      if s.args == [] then None else Substitute(w, concrete, s.args[0])
    else
      var r := Search(w, s, Supers(w, s.generic));
      if r.Some? then Substitute(w, concrete, r.value) else None
  }

  // ---- The reference: full substitution along a path of supertypes

  function Replace(w: World, concrete: ParamType, t: Type): Type {
    match t
    case Simple(_) => t
    case Generic(pt) => Generic(ParamType(pt.generic, ReplaceAll(w, concrete, pt.args)))
    case Parameter(p) =>
      var params := Params(w, concrete.generic);
      var i := IndexOf(params, p);
      if i < |params| && i < |concrete.args| then concrete.args[i] else t
    case Wildcard(kind, bound) => if bound.Some? then Wildcard(kind, Some(Replace(w, concrete, bound.value))) else t
    case Array(c) => Array(Replace(w, concrete, c))
  }

  function ReplaceAll(w: World, concrete: ParamType, ts: seq<Type>): seq<Type> {
    if ts == [] then [] else [Replace(w, concrete, ts[0])] + ReplaceAll(w, concrete, ts[1..])
  }

  /** A chain of parameterized supertypes that ends at Iterable. */
  ghost predicate IsPath(w: World, path: seq<ParamType>) {
    && path != [] && path[|path| - 1].generic == ITERABLE && path[|path| - 1].args != []
    && forall i :: 0 <= i < |path| - 1 ==> path[i + 1] in Supers(w, path[i].generic)
  }

  /** The argument of Iterable under all the substitutions along the path, the innermost first. */
  function FullArgument(w: World, path: seq<ParamType>): Type
    requires path != [] && path[|path| - 1].args != []
  {
    if |path| == 1 then path[0].args[0] else Replace(w, path[0], FullArgument(w, path[1..]))
  }

  // ---- Well-formed declarations

  /** A type without its wildcards. */
  function Core(t: Type): Type {
    if t.Wildcard? && t.bound.Some? then Core(t.bound.value) else t
  }

  /** Some wildcard around the core is a `? super`, so the erasure is Object. */
  predicate UnderSuper(t: Type) {
    t.Wildcard? && t.bound.Some? && (t.kind != Extends || UnderSuper(t.bound.value))
  }

  /** The bound of a wildcard is a reference type, never a wildcard. */
  predicate PlainBound(t: Type) {
    t.Wildcard? && t.bound.Some? ==> !t.bound.value.Wildcard?
  }

  predicate Scoped(w: World, t: Type, g: Class) {
    Core(t).Parameter? ==> Core(t).param in Params(w, g)
  }

  /** Classes do not share type parameters, and the arguments a class gives its supertypes mention its own. */
  ghost predicate WellFormed(w: World) {
    && Acyclic(w)
    && (forall g, k, p :: 0 <= g < k < |w.decls| && p in Params(w, g) ==> p !in Params(w, k))
    && (forall g, s, a :: 0 <= g < |w.decls| && s in Supers(w, g) && a in s.args ==> PlainBound(a) && Scoped(w, a, g))
  }

  // ---- The two agree

  /** No class from g on has parameter p, so no later step of the substitution reaches it. */
  ghost predicate Stuck(w: World, p: Param, g: nat) {
    forall k: Class :: g <= k < |w.decls| ==> p !in Params(w, k)
  }

  /** Type t of the search stands for type u of the reference, before the parameters of class g are
      substituted. They can differ inside, in wildcards, and where a parameter has no argument. */
  ghost predicate StandsFor(w: World, t: Type, u: Type, g: nat) {
    var a, b := Core(t), Core(u);
    match b
    case Simple(_) => a == b
    case Generic(pt) => a.Generic? && a.pt.generic == pt.generic
    case Wildcard(_, _) => a.Wildcard?
    case Array(_) => a.Array?
    case Parameter(p) => (a == b && (p in Params(w, g) || Stuck(w, p, g)))
                         || (ErasedType(w, p).Some? && a == Simple(ErasedType(w, p).value) && Stuck(w, p, g))
  }

  /** If a `? super` is left around a found type, it is one around a type parameter that erases to Object. */
  predicate Bare(w: World, t: Type) {
    UnderSuper(t) ==> Core(t).Parameter? && ErasedType(w, Core(t).param).None?
  }

  lemma {:induction false} ErasureOfCore(w: World, t: Type)
    ensures Erasure(w, t) == if UnderSuper(t) then None else Erasure(w, Core(t))
  {
    if t.Wildcard? && t.bound.Some? { ErasureOfCore(w, t.bound.value); }
  }

  lemma {:induction false} CoreIsBare(t: Type)
    ensures Core(t).Wildcard? ==> Core(t).bound.None?
  {
    if t.Wildcard? && t.bound.Some? { CoreIsBare(t.bound.value); }
  }

  /** The search loses every wildcard, so what it finds erases as the core of the reference does. */
  lemma {:induction false} CoreErasure(w: World, t: Type, u: Type, g: nat)
    requires StandsFor(w, t, u, g) && Bare(w, t)
    ensures Erasure(w, t) == Erasure(w, Core(u))
  {
    ErasureOfCore(w, t);
    CoreIsBare(t);
    CoreIsBare(u);
  }

  lemma {:induction false} StepIsBare(w: World, concrete: ParamType, t: Type)
    requires forall a :: a in concrete.args ==> PlainBound(a)
    ensures Substitute(w, concrete, t).Some? ==> Bare(w, Substitute(w, concrete, t).value)
  {
    if t.Wildcard? && t.bound.Some? {
      StepIsBare(w, concrete, t.bound.value);
      if Substitute(w, concrete, t.bound.value).None? { assert Core(t) == t.bound.value; }
    } else if t.Parameter? {
      var i := IndexOf(Params(w, concrete.generic), t.param);
      if i < |Params(w, concrete.generic)| && i < |concrete.args| { assert concrete.args[i] in concrete.args; }
    }
  }

  lemma {:induction false} CoreOfReplace(w: World, concrete: ParamType, u: Type)
    ensures Core(Replace(w, concrete, u)) == Core(Replace(w, concrete, Core(u)))
  {
    if u.Wildcard? && u.bound.Some? { CoreOfReplace(w, concrete, u.bound.value); }
  }

  /** The type arguments of a step are in scope of class `next`, or it is the last step. */
  ghost predicate ArgsScoped(w: World, concrete: ParamType, next: nat) {
    forall a :: a in concrete.args ==> PlainBound(a) && (Scoped(w, a, next) || next >= |w.decls|)
  }

  /** A parameter without an argument stays, and no later step has it. */
  lemma {:induction false} StuckNext(w: World, concrete: ParamType, p: Param, next: nat)
    requires WellFormed(w) && concrete.generic < next
    requires p in Params(w, concrete.generic) || Stuck(w, p, concrete.generic)
    ensures Stuck(w, p, next)
  {
    if p in Params(w, concrete.generic) {
      forall k: Class | next <= k < |w.decls| ensures p !in Params(w, k) {}
    }
  }

  /** An argument stands for itself, with or without its wildcard. */
  lemma {:induction false} ArgumentStandsFor(w: World, concrete: ParamType, i: nat, next: nat)
    requires i < |concrete.args| && ArgsScoped(w, concrete, next)
    ensures var arg := concrete.args[i];
            StandsFor(w, if arg.Wildcard? && arg.bound.Some? then arg.bound.value else arg, arg, next)
  {
    var arg := concrete.args[i];
    assert arg in concrete.args;
  }

  lemma {:induction false} ParameterStandsFor(w: World, concrete: ParamType, p: Param, u: Type, next: nat)
    requires WellFormed(w) && concrete.generic < next && ArgsScoped(w, concrete, next)
    requires Core(u) == Parameter(p) && (p in Params(w, concrete.generic) || Stuck(w, p, concrete.generic))
    ensures var r := Substitute(w, concrete, Parameter(p));
            if r.Some? then StandsFor(w, r.value, Replace(w, concrete, u), next)
            else StandsFor(w, Parameter(p), Replace(w, concrete, u), next)
  {
    hide WellFormed;
    CoreOfReplace(w, concrete, u);
    var params := Params(w, concrete.generic);
    var i := IndexOf(params, p);
    if i < |params| && i < |concrete.args| {
      ArgumentStandsFor(w, concrete, i, next);
    } else {
      StuckNext(w, concrete, p, next);
      hide Stuck;
    }
  }

  /** One step of both substitutions. */
  lemma {:induction false} StepStandsFor(w: World, concrete: ParamType, t: Type, u: Type, next: nat)
    requires WellFormed(w) && concrete.generic < next && ArgsScoped(w, concrete, next)
    requires StandsFor(w, t, u, concrete.generic)
    ensures var r := Substitute(w, concrete, t);
            if r.Some? then StandsFor(w, r.value, Replace(w, concrete, u), next)
            else StandsFor(w, t, Replace(w, concrete, u), next)
    decreases t
  {
    CoreOfReplace(w, concrete, u);
    CoreIsBare(u);
    match t
    case Wildcard(kind, bound) =>
      if bound.Some? { StepStandsFor(w, concrete, bound.value, u, next); }
    case Parameter(p) => ParameterStandsFor(w, concrete, p, u, next);
    case Simple(_) =>
      if Core(u).Parameter? {
        StuckNext(w, concrete, Core(u).param, next);
        NotFound(w, concrete, Core(u).param);
      }
    case Generic(_) =>
    case Array(_) =>
  }

  lemma {:induction false} NotFound(w: World, concrete: ParamType, p: Param)
    requires Stuck(w, p, concrete.generic)
    ensures Replace(w, concrete, Parameter(p)) == Parameter(p)
  {
  }

  // ---- The search finds a path

  lemma {:induction false} SearchFinds(w: World, pt: ParamType, supers: seq<ParamType>, next: nat)
    returns (path: seq<ParamType>)
    requires WellFormed(w) && (forall s :: s in supers ==> s in Supers(w, pt.generic))
    requires pt.generic < next && ArgsScoped(w, pt, next) && Search(w, pt, supers).Some?
    ensures IsPath(w, path) && |path| > 1 && path[0] == pt
    ensures StandsFor(w, Search(w, pt, supers).value, FullArgument(w, path), next)
    ensures Bare(w, Search(w, pt, supers).value)
    decreases pt.generic, 1, |supers|
  {
    if FindInSuper(w, pt, supers[0]).Some? {
      path := FindInSuperFinds(w, pt, supers[0], next);
    } else {
      path := SearchFinds(w, pt, supers[1..], next);
    }
  }

  lemma {:induction false} FindInSuperFinds(w: World, concrete: ParamType, s: ParamType, next: nat)
    returns (path: seq<ParamType>)
    requires WellFormed(w) && s in Supers(w, concrete.generic)
    requires concrete.generic < next && ArgsScoped(w, concrete, next) && FindInSuper(w, concrete, s).Some?
    ensures IsPath(w, path) && |path| > 1 && path[0] == concrete
    ensures StandsFor(w, FindInSuper(w, concrete, s).value, FullArgument(w, path), next)
    ensures Bare(w, FindInSuper(w, concrete, s).value)
    decreases concrete.generic, 0
  {
    var g := concrete.generic;
    assert ArgsScoped(w, s, g);
    if s.generic == ITERABLE {
      path := [concrete, s];
      assert path[1..] == [s] && s.args[0] in s.args;
      StepStandsFor(w, concrete, s.args[0], s.args[0], next);
      StepIsBare(w, concrete, s.args[0]);
    } else {
      var found := Search(w, s, Supers(w, s.generic));
      var rest := SearchFinds(w, s, Supers(w, s.generic), g);
      path := [concrete] + rest;
      assert path[1..] == rest;
      StepStandsFor(w, concrete, found.value, FullArgument(w, rest), next);
      StepIsBare(w, concrete, found.value);
    }
  }

  // ---- The search misses no path

  /** Every type parameter of its class has an argument. */
  predicate Applied(w: World, pt: ParamType) {
    |Params(w, pt.generic)| <= |pt.args|
  }

  /** Only a parameter without an argument and without a bound is lost. */
  lemma {:induction false} AppliedKeeps(w: World, concrete: ParamType, t: Type)
    requires Applied(w, concrete) && (t.Parameter? ==> t.param in Params(w, concrete.generic))
    ensures Substitute(w, concrete, t).Some?
  {
  }

  /** A parameter that comes out of a step was written in the arguments of that step. */
  lemma {:induction false} FromArguments(w: World, concrete: ParamType, t: Type)
    requires forall a :: a in concrete.args ==> PlainBound(a)
    ensures var r := Substitute(w, concrete, t);
            r.Some? && r.value.Parameter? ==> exists a :: a in concrete.args && Core(a) == r.value
    decreases t
  {
    if t.Wildcard? && t.bound.Some? {
      FromArguments(w, concrete, t.bound.value);
    } else if t.Parameter? {
      var i := IndexOf(Params(w, concrete.generic), t.param);
      if i < |Params(w, concrete.generic)| && i < |concrete.args| {
        var arg := concrete.args[i];
        assert arg in concrete.args;
        var r := Substitute(w, concrete, t).value;
        assert r.Parameter? ==> Core(arg) == r;
      }
    }
  }

  /** A parameter found in supertypes of s is one of the class g that s is a supertype of. */
  lemma {:induction false} FoundInScope(w: World, g: Class, s: ParamType, supers: seq<ParamType>)
    requires WellFormed(w) && s in Supers(w, g) && forall x :: x in supers ==> x in Supers(w, s.generic)
    ensures var r := Search(w, s, supers); r.Some? && r.value.Parameter? ==> r.value.param in Params(w, g)
    decreases |supers|
  {
    if supers != [] {
      var t := supers[0];
      var r := FindInSuper(w, s, t);
      if r.Some? {
        var inner := if t.generic == ITERABLE then t.args[0] else Search(w, t, Supers(w, t.generic)).value;
        FromArguments(w, s, inner);
      } else {
        FoundInScope(w, g, s, supers[1..]);
      }
    }
  }

  /** A chain from pt up to Iterable is enough for the search from pt to succeed, if pt and every step of the
      chain have their arguments. */
  lemma {:induction false} SearchComplete(w: World, path: seq<ParamType>)
    requires WellFormed(w) && IsPath(w, path) && |path| > 1
    requires forall i :: 0 <= i < |path| - 1 ==> path[i].generic != ITERABLE && Applied(w, path[i])
    ensures Search(w, path[0], Supers(w, path[0].generic)).Some?
    decreases |path|
  {
    hide Search, FindInSuper, Substitute;
    var pt, s := path[0], path[1];
    assert s in Supers(w, pt.generic);
    if |path| == 2 {
      assert s.args[0] in s.args && Scoped(w, s.args[0], pt.generic);
      AppliedKeeps(w, pt, s.args[0]);
    } else {
      assert path[1..][0] == s && path[1..][|path| - 2] == path[|path| - 1];
      SearchComplete(w, path[1..]);
      FoundInScope(w, pt.generic, s, Supers(w, s.generic));
      AppliedKeeps(w, pt, Search(w, s, Supers(w, s.generic)).value);
    }
    StepFound(w, pt, s);
    FirstSome(w, pt, Supers(w, pt.generic), s);
  }

  /** What is found in a supertype and not lost by the substitution is found. */
  lemma {:induction false} StepFound(w: World, concrete: ParamType, s: ParamType)
    requires Acyclic(w) && s in Supers(w, concrete.generic)
    requires if s.generic == ITERABLE then s.args != [] && Substitute(w, concrete, s.args[0]).Some?
             else var r := Search(w, s, Supers(w, s.generic)); r.Some? && Substitute(w, concrete, r.value).Some?
    ensures FindInSuper(w, concrete, s).Some?
  {
    hide Search, Substitute;
  }

  lemma {:induction false} FirstSome(w: World, pt: ParamType, supers: seq<ParamType>, s: ParamType)
    requires Acyclic(w) && s in supers && forall x :: x in supers ==> x in Supers(w, pt.generic)
    requires FindInSuper(w, pt, s).Some?
    ensures Search(w, pt, supers).Some?
    decreases |supers|
  {
    if supers[0] != s { FirstSome(w, pt, supers[1..], s); }
  }

  /** Every parameterized supertype has its arguments, as Java demands. */
  ghost predicate AllApplied(w: World) {
    forall g, s :: 0 <= g < |w.decls| && s in Supers(w, g) ==> Applied(w, s)
  }

  lemma {:induction false} StepsApplied(w: World, path: seq<ParamType>)
    requires Acyclic(w) && AllApplied(w) && IsPath(w, path) && Applied(w, path[0])
    ensures forall i :: 0 <= i < |path| ==> Applied(w, path[i])
    ensures forall i :: 0 <= i < |path| - 1 ==> path[i].generic != ITERABLE
  {
    forall i | 0 < i < |path| ensures Applied(w, path[i]) {
      assert path[i - 1 + 1] in Supers(w, path[i - 1].generic);
    }
    forall i | 0 <= i < |path| - 1 ensures path[i].generic != ITERABLE {
      assert path[i + 1] in Supers(w, path[i].generic);
    }
  }

  /** The search succeeds exactly if a chain of supertypes leads to Iterable, but for Iterable<?> itself. */
  lemma {:induction false} FindExact(w: World, pt: ParamType)
    requires WellFormed(w) && AllApplied(w) && Applied(w, pt) && forall a :: a in pt.args ==> PlainBound(a)
    ensures Find(w, pt).Some? <==>
              (exists path :: IsPath(w, path) && path[0] == pt)
              && !(pt.generic == ITERABLE && pt.args != [] && pt.args[0].Wildcard? && pt.args[0].bound.None?)
  {
    hide AllApplied, Search, Applied;
    if pt.generic == ITERABLE {
      if pt.args != [] { assert IsPath(w, [pt]); }
      forall path | IsPath(w, path) && path[0] == pt ensures |path| == 1 {
        StepsApplied(w, path);
      }
    } else {
      if Find(w, pt).Some? {
        var path := SearchFinds(w, pt, Supers(w, pt.generic), |w.decls| + pt.generic + 1);
        assert IsPath(w, path) && path[0] == pt;
      }
      forall path | IsPath(w, path) && path[0] == pt ensures Find(w, pt).Some? {
        StepsApplied(w, path);
        SearchComplete(w, path);
      }
    }
  }

  /** What is found when the fully substituted argument of Iterable is u: its erasure is that of u unless
      u is a `? super` of something with an erasure of its own, when Object would have been right. */
  ghost predicate ExactErasure(w: World, found: Type, u: Type) {
    Erasure(w, found) == Erasure(w, u) <==> !(UnderSuper(u) && Erasure(w, Core(u)).Some?)
  }

  /** Whenever the search returns a type, it has followed a path of supertypes to Iterable, and this is exactly
      when its erasure is that of Iterable's argument, fully substituted along the path. */
  lemma {:induction false} ElementErasure(w: World, pt: ParamType)
    requires WellFormed(w) && forall a :: a in pt.args ==> PlainBound(a)
    ensures Find(w, pt).Some? ==>
              exists path ::
                IsPath(w, path) && path[0] == pt && ExactErasure(w, Find(w, pt).value, FullArgument(w, path))
  {
    var found := Find(w, pt);
    if found.Some? {
      var end := |w.decls| + pt.generic + 1;
      if pt.generic == ITERABLE {
        assert pt.args[0] in pt.args;
        assert IsPath(w, [pt]);
        ErasureOfCore(w, pt.args[0]);
        ErasureOfCore(w, found.value);
        assert ExactErasure(w, found.value, FullArgument(w, [pt]));
      } else {
        var path := SearchFinds(w, pt, Supers(w, pt.generic), end);
        CoreErasure(w, found.value, FullArgument(w, path), end);
        ErasureOfCore(w, FullArgument(w, path));
        assert ExactErasure(w, found.value, FullArgument(w, path));
      }
    }
  }

  /** interface Iterable<T>, and interface Collection<E> extends Iterable<E>. */
  function Collections(): World {
    World([Decl([9], None, []), Decl([10], None, [Some(ParamType(ITERABLE, [Parameter(10)]))])], map[])
  }

  lemma {:induction false} CollectionsSupers()
    ensures |Collections().decls| == 2 && Params(Collections(), 0) == [9] && Params(Collections(), 1) == [10]
    ensures Supers(Collections(), 0) == [] && Supers(Collections(), 1) == [ParamType(ITERABLE, [Parameter(10)])]
  {
    var e := ParamType(ITERABLE, [Parameter(10)]);
    var iterable, collection := Decl([9], None, []), Decl([10], None, [Some(e)]);
    PresentOne(e);
    assert [collection.superclass] + collection.interfaces == [None, Some(e)];
    assert [iterable.superclass] + iterable.interfaces == [None];
  }

  lemma {:induction false} CollectionsWellFormed()
    ensures WellFormed(Collections())
  {
    hide Collections, Supers, Params;
    CollectionsSupers();
  }

  /** It goes wrong on the way up too: where Collection<E> extends Iterable<E>, the element type of a
      Collection<? super Integer> is taken to be Integer, and its elements are any objects. */
  lemma {:induction false} SuperOfCollection()
    ensures var element, integer, collection := 10, 2, 1;
            var w, pt := Collections(), ParamType(collection, [Wildcard(Super, Some(Simple(integer)))]);
            var path := [pt, ParamType(ITERABLE, [Parameter(element)])];
            && WellFormed(w) && IsPath(w, path)
            && Find(w, pt) == Some(Simple(integer)) && Erasure(w, Simple(integer)) == Some(integer)
            && Erasure(w, FullArgument(w, path)) == None
  {
    hide Collections, Supers, Find, FullArgument, Params;
    CollectionsSupers();
    CollectionsWellFormed();
    OneStep(Collections(), ParamType(1, [Wildcard(Super, Some(Simple(2)))]), ParamType(ITERABLE, [Parameter(10)]), 10,
            Simple(2));
  }

  lemma {:induction false} OneStep(w: World, pt: ParamType, e: ParamType, p: Param, bound: Type)
    requires Acyclic(w) && Supers(w, pt.generic) == [e] && Params(w, pt.generic) == [p]
    requires e == ParamType(ITERABLE, [Parameter(p)]) && pt.args == [Wildcard(Super, Some(bound))]
    ensures Find(w, pt) == Some(bound) && FullArgument(w, [pt, e]) == Wildcard(Super, Some(bound))
  {
    hide Acyclic;
    assert e in Supers(w, pt.generic) && e.generic < pt.generic by { SuperBelow(w, pt.generic, e); }
    assert [pt, e][1..] == [e] && e.args[0] == Parameter(p);
    assert FindInSuper(w, pt, e) == Some(bound);
  }

  lemma {:induction false} SuperBelow(w: World, g: Class, s: ParamType)
    requires Acyclic(w) && s in Supers(w, g)
    ensures s.generic < g
  {
  }

  lemma {:induction false} PresentOne(e: ParamType)
    ensures Present([None]) == [] && Present([None, Some(e)]) == [e]
  {
    assert [None, Some(e)][1..] == [Some(e)] && [Some(e)][1..] == [];
    var one: seq<Option<ParamType>> := [None];
    assert one[1..] == [];
  }

  /** For Iterable itself: the result is right exactly if its argument is no `? super` of a type with an
      erasure of its own, for which the result should have been Object. */
  lemma {:induction false} DirectExact(w: World, arg: Type)
    requires Acyclic(w)
    ensures var found := Find(w, ParamType(ITERABLE, [arg]));
            (found.Some? ==> Erasure(w, found.value) == Erasure(w, arg)) <==>
            !(arg.Wildcard? && arg.kind != Extends && arg.bound.Some? && Erasure(w, arg.bound.value).Some?)
  {
    assert [arg] != [] && [arg][0] == arg;
  }
}
