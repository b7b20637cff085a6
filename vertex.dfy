/** include/vertex.h: a vertex is an id and a latent vector of `D` weights. */
module Vertices {
  import opened CMath

  /** `_MAX_`: `rand()` is reduced modulo `2 * MAX` and rescaled by `MAX`. */
  const MAX: nat := 100000

  /**
   * A vertex is stored by value in its side's vector (`push_back` copies it),
   * so it is a datatype and its weights are replaced, never aliased.
   */
  datatype Vertex = Vertex(id: string, weights: seq<real>)

  /** `double(rand() % (2*_MAX_)) / _MAX_ - 1` for one non-negative draw of `rand()`. */
  function Numerator(draw: nat): real
  {
    (draw % (2 * MAX)) as real / MAX as real - 1.0
  }

  /** Before division by `sqrt(D)` a coordinate lies in [-1, 1). */
  lemma NumeratorRange(draw: nat)
    ensures -1.0 <= Numerator(draw) < 1.0
  {
  }

  /** One initial coordinate: the numerator divided by `sqrt(D)`. */
  function Coordinate(m: Libm, d: nat, draw: nat): real
  {
    m.div(Numerator(draw), m.sqrt(d as real))
  }

  /** The weights a vertex built from the draws `draws(start)`, `draws(start + 1)`, ... gets. */
  function InitialWeights(m: Libm, d: nat, draws: nat -> nat, start: nat): (w: seq<real>)
    ensures |w| == d
    ensures forall i :: 0 <= i < d ==> w[i] == Coordinate(m, d, draws(start + i))
  {
    seq(d, i requires 0 <= i < d => Coordinate(m, d, draws(start + i)))
  }

  /**
   * The constructor `Vertex(id, D)`: resize the weights to `D` zeros, then
   * overwrite entry `i` with the coordinate of the `i`-th draw.
   */
  method NewVertex(id: string, d: nat, m: Libm, draws: nat -> nat, start: nat) returns (v: Vertex)
    ensures v.id == id
    ensures |v.weights| == d
    ensures forall i :: 0 <= i < d ==> v.weights[i] == Coordinate(m, d, draws(start + i))
  {
    var w := seq(d, _ => 0.0);
    for i := 0 to d
      invariant |w| == d
      invariant forall k :: 0 <= k < i ==> w[k] == Coordinate(m, d, draws(start + k))
    {
      w := w[i := Coordinate(m, d, draws(start + i))];
    }
    v := Vertex(id, w);
  }

  /** `operator==`: two vertices are equal when their ids are. */
  predicate SameVertex(a: Vertex, b: Vertex)
  {
    a.id == b.id
  }

  /** Equality ignores the weights entirely. */
  lemma SameVertexIgnoresWeights(id: string, w1: seq<real>, w2: seq<real>)
    ensures SameVertex(Vertex(id, w1), Vertex(id, w2))
  {
  }

  /** `operator==` is an equivalence relation, and distinguishes vertices exactly by id. */
  lemma SameVertexEquivalence(a: Vertex, b: Vertex, c: Vertex)
    ensures SameVertex(a, a)
    ensures SameVertex(a, b) ==> SameVertex(b, a)
    ensures SameVertex(a, b) && SameVertex(b, c) ==> SameVertex(a, c)
    ensures SameVertex(a, b) <==> a.id == b.id
  {
  }
}
