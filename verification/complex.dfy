/** Complex numbers as immutable values: the `Point` class of index.js.
    Both components are exact reals; the JavaScript original computes with
    IEEE-754 doubles, whose rounding, overflow and NaN this model abstracts. */
module Complex {

  /** The complex number x + yi. Every operation returns a new value and
      leaves its operands as they were (datatype values cannot change). */
  datatype Point = Point(x: real, y: real) {

    /** Componentwise sum (`plus`). */
    function Plus(p: Point): Point {
      Point(x + p.x, y + p.y)
    }

    /** Componentwise difference (`minus`); undoes `Plus`. */
    function Minus(p: Point): (r: Point)
      ensures r.Plus(p) == this
    {
      Point(x - p.x, y - p.y)
    }

    /** The complex product (`timesComplex`): (x + yi)(u + vi) = (xu - yv) + (xv + yu)i. */
    function TimesComplex(p: Point): Point {
      Point(x * p.x - y * p.y, x * p.y + y * p.x)
    }
  }

  const Zero := Point(0.0, 0.0)
  const One := Point(1.0, 0.0)
  const I := Point(0.0, 1.0)

  /** |p|², the squared modulus. */
  function NormSquared(p: Point): real {
    p.x * p.x + p.y * p.y
  }

  /** The modulus is multiplicative: |pq|² = |p|²·|q|². */
  lemma TimesComplexNorm(p: Point, q: Point)
    ensures NormSquared(p.TimesComplex(q)) == NormSquared(p) * NormSquared(q)
  {
  }

  /** Plus and Minus are inverse to each other, in both orders. */
  lemma PlusMinusInverse(p: Point, q: Point)
    ensures p.Plus(q).Minus(q) == p
    ensures p.Minus(q).Plus(q) == p
    ensures p.Plus(q) == q.Plus(p)
    ensures p.Plus(Zero) == p && p.Minus(p) == Zero
  {
  }

  /** The product is commutative. */
  lemma TimesComplexCommutes(p: Point, q: Point)
    ensures p.TimesComplex(q) == q.TimesComplex(p)
  {
  }

  /** One is the identity, Zero the annihilator, and I squares to -1. */
  lemma TimesComplexUnits(p: Point)
    ensures p.TimesComplex(One) == p
    ensures p.TimesComplex(Zero) == Zero
    ensures I.TimesComplex(I) == Point(-1.0, 0.0)
  {
  }

  /** The product distributes over Plus. */
  lemma TimesComplexDistributes(p: Point, q: Point, r: Point)
    ensures p.TimesComplex(q.Plus(r)) == p.TimesComplex(q).Plus(p.TimesComplex(r))
  {
  }
}
