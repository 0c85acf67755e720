/** The class hierarchy the exception checks walk, reduced to what they ask of it:
    each class has one superclass and every chain of superclasses ends at Throwable. */
module Classes {

  type Class = nat

  const THROWABLE: Class := 0
  const ERROR: Class := 1
  const EXCEPTION: Class := 2
  const RUNTIME_EXCEPTION: Class := 3

  /** Entry c is the superclass of class c. Classes are numbered so that a superclass comes first,
      which any finite single-inheritance hierarchy allows; entry 0 is unused. */
  type Hierarchy = h: seq<Class> | IsHierarchy(h) witness [0, 0, 0, 2]

  ghost predicate IsHierarchy(h: seq<Class>) {
    && 4 <= |h|
    && h[ERROR] == THROWABLE && h[EXCEPTION] == THROWABLE && h[RUNTIME_EXCEPTION] == EXCEPTION
    && forall c :: 0 < c < |h| ==> h[c] < c
  }

  /** IsSubclass: d is c itself or is met on the way up from c. */
  predicate IsSubclass(h: Hierarchy, c: Class, d: Class)
    decreases c
  {
    c == d || (0 < c < |h| && IsSubclass(h, h[c], d))
  }

  /** CheckedException, for class types. */
  predicate Checked(h: Hierarchy, c: Class) {
    !IsSubclass(h, c, RUNTIME_EXCEPTION) && !IsSubclass(h, c, ERROR)
  }

  lemma {:induction false} SubclassTransitive(h: Hierarchy, a: Class, b: Class, c: Class)
    requires IsSubclass(h, a, b) && IsSubclass(h, b, c)
    ensures IsSubclass(h, a, c)
    decreases a
  {
    if a != b {
      SubclassTransitive(h, h[a], b, c);
    }
  }

  /** Tree shape: two superclasses of one class are comparable. */
  lemma {:induction false} SuperclassesComparable(h: Hierarchy, x: Class, a: Class, b: Class)
    requires IsSubclass(h, x, a) && IsSubclass(h, x, b)
    ensures IsSubclass(h, a, b) || IsSubclass(h, b, a)
    decreases x
  {
    if x != a && x != b {
      SuperclassesComparable(h, h[x], a, b);
    }
  }

  /** A superclass of a checked class is checked. */
  lemma {:induction false} CheckedUpward(h: Hierarchy, x: Class, c: Class)
    requires IsSubclass(h, x, c) && Checked(h, x)
    ensures Checked(h, c)
  {
    if IsSubclass(h, c, RUNTIME_EXCEPTION) {
      SubclassTransitive(h, x, c, RUNTIME_EXCEPTION);
    }
    if IsSubclass(h, c, ERROR) {
      SubclassTransitive(h, x, c, ERROR);
    }
  }
}
