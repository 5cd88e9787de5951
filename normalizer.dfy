/** The type normaliser `normalize` of the consistency check. */
module Normalizer {
  import opened Reflection
  import opened Failures

  /** The forms `normalize` returns: neither parameterized nor a type variable. */
  predicate IsCanonical(t: Type) {
    t.ClassType? || t.OtherType?
  }

  /** A parameterized type gives its raw class; a type variable with exactly one
      bound gives its bound, normalised; a variable with zero or several bounds
      fails; anything else is returned unchanged. */
  function Normalize(t: Type): (r: Result<Type>)
    ensures r.Ok? ==> IsCanonical(r.value)
    ensures r.Err? ==> r.error.MalformedType? && r.error.variable.TypeVar? && |r.error.variable.bounds| != 1
  {
    match t
    case Parameterized(raw, _) => Ok(ClassType(raw))
    case TypeVar(_, bounds) =>
      if |bounds| == 1 then Normalize(bounds[0]) else Err(MalformedType(t))
    case _ => Ok(t)
  }

  /** A type that is not a variable, with its type arguments dropped. */
  function Erase(t: Type): Type
    requires !t.TypeVar?
  {
    if t.Parameterized? then ClassType(t.raw) else t
  }

  /** The type reached from `t` by stepping k times from a type variable to its
      only bound; None when some step starts anywhere else. */
  function Descend(t: Type, k: nat): Option<Type>
  {
    if k == 0 then Some(t)
    else if t.TypeVar? && |t.bounds| == 1 then Descend(t.bounds[0], k - 1)
    else None
  }

  /** Every chain of single bounds ends, either at a type that is not a variable
      or at a variable that has zero or several bounds. */
  lemma {:induction false} DescendEnds(t: Type) returns (k: nat)
    ensures Descend(t, k).Some?
    ensures !Descend(t, k).value.TypeVar? || |Descend(t, k).value.bounds| != 1
  {
    if t.TypeVar? && |t.bounds| == 1 {
      var j := DescendEnds(t.bounds[0]);
      k := j + 1;
    } else {
      k := 0;
    }
  }

  /** When the chain of single bounds reaches a type u that is not a variable,
      normalising gives u with its type arguments dropped. */
  lemma {:induction false} NormalizeReachesBound(t: Type, k: nat, u: Type)
    requires Descend(t, k) == Some(u) && !u.TypeVar?
    ensures Normalize(t) == Ok(Erase(u))
  {
    if k > 0 {
      NormalizeReachesBound(t.bounds[0], k - 1, u);
    }
  }

  /** When the chain reaches a variable v with zero or several bounds,
      normalising fails and names v; no bound is ever picked silently. */
  lemma {:induction false} NormalizeFailsAtVariable(t: Type, k: nat, v: Type)
    requires Descend(t, k) == Some(v) && v.TypeVar? && |v.bounds| != 1
    ensures Normalize(t) == Err(MalformedType(v))
  {
    if k > 0 {
      NormalizeFailsAtVariable(t.bounds[0], k - 1, v);
    }
  }

  /** Normalising is a fixed point once applied. */
  lemma NormalizeIdempotent(t: Type)
    ensures Normalize(t).Ok? ==> Normalize(Normalize(t).value) == Normalize(t)
  {
  }

  /** The canonical types are exactly the ones normalising leaves unchanged. */
  lemma CanonicalIsFixedPoint(t: Type)
    ensures IsCanonical(t) <==> Normalize(t) == Ok(t)
  {
  }
}
