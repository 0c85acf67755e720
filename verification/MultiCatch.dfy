/** The type of a multi-catch parameter: the alternatives folded by walking up from the type so far. */
module MultiCatch {
  import opened Classes
  import opened Options

  /** Some alternative is class c. An alternative without a type is skipped. */
  predicate Names(union: seq<Option<Class>>, c: Class) {
    Some(c) in union
  }

  ghost predicate CommonSuperclass(h: Hierarchy, union: seq<Option<Class>>, d: Class) {
    forall c: Class :: Names(union, c) ==> IsSubclass(h, c, d)
  }

  /** Class r is a superclass of all alternatives, and a subclass of every other such class. */
  ghost predicate Least(h: Hierarchy, union: seq<Option<Class>>, r: Class) {
    CommonSuperclass(h, union, r) && forall d: Class :: CommonSuperclass(h, union, d) ==> IsSubclass(h, r, d)
  }

  lemma {:induction false} EndsAtThrowable(h: Hierarchy, c: Class)
    requires c < |h|
    ensures IsSubclass(h, c, THROWABLE)
    decreases c
  {
    if c > 0 { EndsAtThrowable(h, h[c]); }
  }

  lemma {:induction false} Antisymmetric(h: Hierarchy, c: Class, d: Class)
    requires IsSubclass(h, c, d) && IsSubclass(h, d, c)
    ensures c == d
  {
    if c != d {
      SuperclassFirst(h, c, d);
      SuperclassFirst(h, d, c);
    }
  }

  lemma {:induction false} SuperclassFirst(h: Hierarchy, c: Class, d: Class)
    requires IsSubclass(h, c, d)
    ensures c == d || d < c
    decreases c
  {
    if c != d { SuperclassFirst(h, h[c], d); }
  }

  /** The result depends only on which classes are named, not on their order or number. */
  lemma {:induction false} LeastUnique(h: Hierarchy, union: seq<Option<Class>>, other: seq<Option<Class>>, r: Class,
                                       s: Class)
    requires Least(h, union, r) && Least(h, other, s) && forall c: Class :: Names(union, c) <==> Names(other, c)
    ensures r == s
  {
    assert CommonSuperclass(h, other, r) && CommonSuperclass(h, union, s);
    Antisymmetric(h, r, s);
  }

  /** The first superclass of `from`, itself included, that is one of cls too. */
  method MeetingPoint(h: Hierarchy, from: Class, cls: Class) returns (candidate: Option<Class>)
    requires from < |h| && cls < |h|
    ensures candidate.Some? && candidate.value < |h|
    ensures IsSubclass(h, from, candidate.value) && IsSubclass(h, cls, candidate.value)
    ensures forall d: Class :: IsSubclass(h, from, d) && IsSubclass(h, cls, d) ==> IsSubclass(h, candidate.value, d)
  {
    EndsAtThrowable(h, cls);
    candidate := Some(from);
    while candidate.Some? && !IsSubclass(h, cls, candidate.value)
      invariant candidate.Some? && candidate.value < |h| && IsSubclass(h, from, candidate.value)
      invariant forall d: Class :: IsSubclass(h, from, d) && IsSubclass(h, cls, d) ==> IsSubclass(h, candidate.value, d)
      decreases if candidate.Some? then candidate.value else 0
    {
      var c := candidate.value;
      candidate := if c == THROWABLE then None else Some(h[c]);
      SubclassTransitive(h, from, c, h[c]);
    }
  }

  /** The parameter type of a multi-catch clause is the least common superclass of its alternatives. */
  method ParameterType(h: Hierarchy, union: seq<Option<Class>>) returns (parmType: Option<Class>)
    requires forall c: Class :: Names(union, c) ==> c < |h|
    ensures parmType.None? <==> forall c: Class :: !Names(union, c)
    ensures parmType.Some? ==> Least(h, union, parmType.value)
  {
    parmType := None;
    for u := 0 to |union|
      invariant parmType.None? <==> forall c: Class :: !Names(union[..u], c)
      invariant parmType.Some? ==> parmType.value < |h| && Least(h, union[..u], parmType.value)
    {
      NamesNext(union, u);
      if union[u].Some? {
        var cls := union[u].value;
        assert Names(union, cls);
        if parmType.None? {
          OnlyNamed(h, union[..u + 1], cls);
          parmType := Some(cls);
        } else {
          var candidate := MeetingPoint(h, parmType.value, cls);
          LeastOfMore(h, union, u, parmType.value, cls, candidate.value);
          parmType := if candidate.Some? then candidate else Some(THROWABLE);
        }
      } else {
        assert forall c: Class :: Names(union[..u + 1], c) <==> Names(union[..u], c);
        SameNames(h, union[..u], union[..u + 1]);
      }
    }
    assert union[..|union|] == union;
  }

  lemma {:induction false} NamesNext(union: seq<Option<Class>>, u: nat)
    requires u < |union|
    ensures forall c: Class :: Names(union[..u + 1], c) <==> Names(union[..u], c) || union[u] == Some(c)
  {
    assert union[..u + 1] == union[..u] + [union[u]];
  }

  lemma {:induction false} SameNames(h: Hierarchy, union: seq<Option<Class>>, other: seq<Option<Class>>)
    requires forall c: Class :: Names(union, c) <==> Names(other, c)
    ensures forall r: Class :: Least(h, union, r) <==> Least(h, other, r)
  {
    assert forall d: Class :: CommonSuperclass(h, union, d) <==> CommonSuperclass(h, other, d);
  }

  lemma {:induction false} OnlyNamed(h: Hierarchy, union: seq<Option<Class>>, cls: Class)
    requires forall c: Class :: Names(union, c) <==> c == cls
    ensures Least(h, union, cls)
  {
    assert Names(union, cls);
  }

  lemma {:induction false} LeastOfMore(h: Hierarchy, union: seq<Option<Class>>, u: nat, r: Class, cls: Class, s: Class)
    requires u < |union| && union[u] == Some(cls) && Least(h, union[..u], r)
    requires IsSubclass(h, r, s) && IsSubclass(h, cls, s)
    requires forall d: Class :: IsSubclass(h, r, d) && IsSubclass(h, cls, d) ==> IsSubclass(h, s, d)
    ensures Least(h, union[..u + 1], s)
  {
    NamesNext(union, u);
    forall c: Class | Names(union[..u + 1], c) ensures IsSubclass(h, c, s) {
      if c != cls { SubclassTransitive(h, c, r, s); }
    }
    forall d: Class | CommonSuperclass(h, union[..u + 1], d) ensures IsSubclass(h, s, d) {
      assert CommonSuperclass(h, union[..u], d);
      assert Names(union[..u + 1], cls);
    }
  }
}
