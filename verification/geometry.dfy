/**
  Canvas geometry: points, the extended reals used as the `±Infinity`
  sentinels of a segment box, and the box itself.
 */
module Geometry {

  datatype Point = Point(x: real, y: real)

  /** A JavaScript number restricted to what the bounds pass produces:
      a finite value or one of the two infinities. */
  datatype XReal = NegInf | Fin(v: real) | PosInf

  predicate Le(a: XReal, b: XReal)
  {
    match (a, b)
    case (NegInf, _) => true
    case (_, PosInf) => true
    case (Fin(x), Fin(y)) => x <= y
    case _ => false
  }

  /** `Math.min` on the extended reals. */
  function Min(a: XReal, b: XReal): (r: XReal)
    ensures Le(r, a) && Le(r, b)
    ensures r == a || r == b
  {
    if Le(a, b) then a else b
  }

  /** `Math.max` on the extended reals. */
  function Max(a: XReal, b: XReal): (r: XReal)
    ensures Le(a, r) && Le(b, r)
    ensures r == a || r == b
  {
    if Le(a, b) then b else a
  }

  lemma LeAntisymmetric(a: XReal, b: XReal)
    requires Le(a, b) && Le(b, a)
    ensures a == b
  {
  }

  lemma LeTransitive(a: XReal, b: XReal, c: XReal)
    requires Le(a, b) && Le(b, c)
    ensures Le(a, c)
  {
  }

  /** A segment's accumulated extent, `{minX, maxX, minY, maxY}`. */
  datatype Bounds = Bounds(minX: XReal, maxX: XReal, minY: XReal, maxY: XReal)
  {
    predicate Finite()
    {
      minX.Fin? && maxX.Fin? && minY.Fin? && maxY.Fin?
    }
  }

  /** The initial value of every segment's box: `min = Infinity`,
      `max = -Infinity`, so the first member sets each side. */
  const Sentinel := Bounds(PosInf, NegInf, PosInf, NegInf)
}
