/**
 * The flat parameter vector handed to the solver (src/solution.cc): all
 * source-side weights first, then all target-side weights, `D` entries per
 * vertex, each side in index order. Source `i`, coordinate `j` sits at
 * `i*D + j`; target `i`, coordinate `j` at `|sources|*D + i*D + j`.
 */
module Layout {
  import opened Vertices

  /** Every vertex of `vs` carries exactly `d` weights. */
  predicate Uniform(vs: seq<Vertex>, d: nat)
  {
    forall i :: 0 <= i < |vs| ==> |vs[i].weights| == d
  }

  /** The weights of `vs` concatenated in index order. */
  function Flatten(vs: seq<Vertex>): seq<real>
  {
    if vs == [] then [] else Flatten(vs[..|vs| - 1]) + vs[|vs| - 1].weights
  }

  /** The flat vector: every source's weights, then every target's. */
  function Pack(ad: seq<Vertex>, ps: seq<Vertex>): seq<real>
  {
    Flatten(ad) + Flatten(ps)
  }

  /** `vs` with vertex `i`'s weights replaced by `x[i*d .. i*d + d]`; ids are kept. */
  function Unflatten(vs: seq<Vertex>, x: seq<real>, d: nat): seq<Vertex>
    requires |x| == |vs| * d
  {
    if vs == [] then []
    else
      var n := |vs| - 1;
      MulSucc(n, d);
      Unflatten(vs[..n], x[..n * d], d) + [Vertex(vs[n].id, x[n * d..])]
  }

  // ---- index arithmetic ----

  lemma MulSucc(n: int, d: int)
    ensures (n + 1) * d == n * d + d
  {
  }

  lemma MulMono(a: int, b: int, d: nat)
    ensures a <= b ==> a * d <= b * d
  {
    if a <= b {
      assert b * d == a * d + (b - a) * d;
    }
  }

  /** Position `i*d + j` of a slot lies inside a block of `n` vertices. */
  lemma SlotBound(i: nat, j: nat, d: nat, n: nat)
    requires i < n && j < d
    ensures i * d + j < n * d
  {
    MulMono(i + 1, n, d);
    MulSucc(i, d);
  }

  /** Two slot positions `i*d + j` with `j < d` coincide only for the same `i` and `j`. */
  lemma SlotUnique(i1: int, j1: nat, i2: int, j2: nat, d: nat)
    requires j1 < d && j2 < d
    requires i1 * d + j1 == i2 * d + j2
    ensures i1 == i2 && j1 == j2
  {
    MulMono(i1 + 1, i2, d);
    MulMono(i2 + 1, i1, d);
    MulSucc(i1, d);
    MulSucc(i2, d);
  }

  /** `i*d + j` with `j < d` decomposes back into `i` and `j`. */
  lemma SlotDivMod(i: nat, j: nat, d: nat)
    requires j < d
    ensures (i * d + j) / d == i && (i * d + j) % d == j
  {
    var t := i * d + j;
    var q, r := t / d, t % d;
    assert t == q * d + r;
    SlotUnique(q, r, i, j, d);
  }

  /** A position is its vertex times `d` plus its coordinate. */
  lemma Decompose(u: nat, d: nat)
    requires 0 < d
    ensures u == (u / d) * d + u % d && u % d < d
  {
  }

  /** A position below `n*d` belongs to a vertex below `n`. */
  lemma DivBelow(u: nat, d: nat, n: nat)
    requires 0 < d && u < n * d
    ensures u / d < n
  {
    Decompose(u, d);
    MulMono(n, u / d, d);
  }

  // ---- length and element access ----

  lemma {:induction false} FlattenLength(vs: seq<Vertex>, d: nat)
    requires Uniform(vs, d)
    ensures |Flatten(vs)| == |vs| * d
  {
    if vs != [] {
      FlattenLength(vs[..|vs| - 1], d);
      MulSucc(|vs| - 1, d);
    }
  }

  /** Coordinate `j` of vertex `i` sits at `i*d + j` of the flattened weights. */
  lemma {:induction false} FlattenAt(vs: seq<Vertex>, d: nat, i: nat, j: nat)
    requires Uniform(vs, d)
    requires i < |vs| && j < d
    ensures |Flatten(vs)| == |vs| * d
    ensures i * d + j < |Flatten(vs)|
    ensures Flatten(vs)[i * d + j] == vs[i].weights[j]
  {
    var n := |vs| - 1;
    var front := vs[..n];
    FlattenLength(vs, d);
    FlattenLength(front, d);
    SlotBound(i, j, d, |vs|);
    if i < n {
      FlattenAt(front, d, i, j);
      SlotBound(i, j, d, n);
    } else {
      assert i * d + j == |Flatten(front)| + j;
    }
  }

  /** The flat vector has `d * (|ad| + |ps|)` entries: `GetDims()`. */
  lemma PackLength(ad: seq<Vertex>, ps: seq<Vertex>, d: nat)
    requires Uniform(ad, d) && Uniform(ps, d)
    ensures |Pack(ad, ps)| == d * (|ad| + |ps|)
  {
    FlattenLength(ad, d);
    FlattenLength(ps, d);
  }

  // ---- the slots of the flat vector ----

  /** A coordinate of one vertex: side (`target` or source), vertex index, coordinate index. */
  datatype Slot = Slot(target: bool, index: nat, coord: nat)

  /** The slot names an existing vertex and coordinate. */
  predicate ValidSlot(s: Slot, d: nat, nAd: nat, nPs: nat)
  {
    s.coord < d && s.index < (if s.target then nPs else nAd)
  }

  /** Where a slot is packed: `i*D + j` for a source, `nAd*D + i*D + j` for a target. */
  function Position(s: Slot, d: nat, nAd: nat): nat
  {
    (if s.target then nAd * d else 0) + s.index * d + s.coord
  }

  /** The slot packed at flat position `t`. */
  function SlotAt(t: nat, d: nat, nAd: nat): Slot
    requires 0 < d
  {
    if t < nAd * d then Slot(false, t / d, t % d)
    else Slot(true, (t - nAd * d) / d, (t - nAd * d) % d)
  }

  /** Every valid slot is packed into `[0, GetDims())`, and is recovered from its position. */
  lemma SlotPositionInverse(s: Slot, d: nat, nAd: nat, nPs: nat)
    requires ValidSlot(s, d, nAd, nPs)
    ensures Position(s, d, nAd) < d * (nAd + nPs)
    ensures SlotAt(Position(s, d, nAd), d, nAd) == s
  {
    SlotDivMod(s.index, s.coord, d);
    if s.target {
      SlotBound(s.index, s.coord, d, nPs);
    } else {
      SlotBound(s.index, s.coord, d, nAd);
    }
  }

  /** Every position in `[0, GetDims())` holds exactly the valid slot `SlotAt` names. */
  lemma PositionSlotInverse(t: nat, d: nat, nAd: nat, nPs: nat)
    requires 0 < d && t < d * (nAd + nPs)
    ensures ValidSlot(SlotAt(t, d, nAd), d, nAd, nPs)
    ensures Position(SlotAt(t, d, nAd), d, nAd) == t
  {
    Distribute(d, nAd, nPs);
    if t < nAd * d {
      DivBelow(t, d, nAd);
      Decompose(t, d);
    } else {
      var u := t - nAd * d;
      DivBelow(u, d, nPs);
      Decompose(u, d);
    }
  }

  /** Packing puts each valid slot's weight at the slot's position. */
  lemma PackAt(ad: seq<Vertex>, ps: seq<Vertex>, d: nat, s: Slot)
    requires Uniform(ad, d) && Uniform(ps, d)
    requires ValidSlot(s, d, |ad|, |ps|)
    ensures |Pack(ad, ps)| == d * (|ad| + |ps|)
    ensures Position(s, d, |ad|) < |Pack(ad, ps)|
    ensures Pack(ad, ps)[Position(s, d, |ad|)] ==
      (if s.target then ps else ad)[s.index].weights[s.coord]
  {
    PackLength(ad, ps, d);
    FlattenLength(ad, d);
    SlotPositionInverse(s, d, |ad|, |ps|);
    if s.target {
      FlattenAt(ps, d, s.index, s.coord);
    } else {
      FlattenAt(ad, d, s.index, s.coord);
    }
  }

  /** The `d` weights of one vertex lie side by side in the packed vector, from its first slot on. */
  lemma PackVertex(ad: seq<Vertex>, ps: seq<Vertex>, d: nat, target: bool, vs: seq<Vertex>, i: nat)
    requires Uniform(ad, d) && Uniform(ps, d)
    requires vs == (if target then ps else ad) && i < |vs|
    ensures Position(Slot(target, i, 0), d, |ad|) + d <= |Pack(ad, ps)|
    ensures forall j :: 0 <= j < d ==> Pack(ad, ps)[Position(Slot(target, i, 0), d, |ad|) + j] == vs[i].weights[j]
  {
    if 0 < d {
      PackAt(ad, ps, d, Slot(target, i, d - 1));
    }
    forall j | 0 <= j < d
      ensures Pack(ad, ps)[Position(Slot(target, i, 0), d, |ad|) + j] == vs[i].weights[j]
    {
      PackAt(ad, ps, d, Slot(target, i, j));
    }
  }

  // ---- unpacking ----

  /** Unflattening keeps ids and reads coordinate `j` of vertex `i` from `x[i*d + j]`. */
  lemma {:induction false} UnflattenAt(vs: seq<Vertex>, x: seq<real>, d: nat, i: nat, j: nat)
    requires |x| == |vs| * d
    requires i < |vs| && j < d
    ensures |Unflatten(vs, x, d)| == |vs|
    ensures Unflatten(vs, x, d)[i].id == vs[i].id
    ensures |Unflatten(vs, x, d)[i].weights| == d
    ensures i * d + j < |x| && Unflatten(vs, x, d)[i].weights[j] == x[i * d + j]
  {
    var n := |vs| - 1;
    MulSucc(n, d);
    UnflattenLength(vs[..n], x[..n * d], d);
    SlotBound(i, j, d, |vs|);
    if i < n {
      UnflattenAt(vs[..n], x[..n * d], d, i, j);
      SlotBound(i, j, d, n);
    }
  }

  lemma {:induction false} UnflattenLength(vs: seq<Vertex>, x: seq<real>, d: nat)
    requires |x| == |vs| * d
    ensures |Unflatten(vs, x, d)| == |vs|
    ensures Uniform(Unflatten(vs, x, d), d)
  {
    if vs != [] {
      var n := |vs| - 1;
      MulSucc(n, d);
      UnflattenLength(vs[..n], x[..n * d], d);
    }
  }

  /** Unflattening the flattened weights gives the vertices back. */
  lemma {:induction false} UnflattenFlatten(vs: seq<Vertex>, d: nat)
    requires Uniform(vs, d)
    ensures |Flatten(vs)| == |vs| * d
    ensures Unflatten(vs, Flatten(vs), d) == vs
  {
    FlattenLength(vs, d);
    if vs != [] {
      var n := |vs| - 1;
      var x := Flatten(vs);
      FlattenLength(vs[..n], d);
      MulSucc(n, d);
      assert x[..n * d] == Flatten(vs[..n]);
      assert x[n * d..] == vs[n].weights;
      UnflattenFlatten(vs[..n], d);
      assert vs == vs[..n] + [vs[n]];
    }
  }

  /** Flattening the unflattened vector gives the vector back. */
  lemma {:induction false} FlattenUnflatten(vs: seq<Vertex>, x: seq<real>, d: nat)
    requires |x| == |vs| * d
    ensures Flatten(Unflatten(vs, x, d)) == x
  {
    if vs != [] {
      var n := |vs| - 1;
      MulSucc(n, d);
      var r := Unflatten(vs, x, d);
      UnflattenLength(vs[..n], x[..n * d], d);
      assert r[..|r| - 1] == Unflatten(vs[..n], x[..n * d], d);
      FlattenUnflatten(vs[..n], x[..n * d], d);
      assert x == x[..n * d] + x[n * d..];
    }
  }

  /** `finalize_solution` after `get_starting_point` leaves every vertex as it was. */
  lemma UnpackPack(ad: seq<Vertex>, ps: seq<Vertex>, d: nat)
    requires Uniform(ad, d) && Uniform(ps, d)
    ensures |Pack(ad, ps)| == d * (|ad| + |ps|)
    ensures Unflatten(ad, Pack(ad, ps)[..|ad| * d], d) == ad
    ensures Unflatten(ps, Pack(ad, ps)[|ad| * d..], d) == ps
  {
    PackLength(ad, ps, d);
    FlattenLength(ad, d);
    assert Pack(ad, ps)[..|ad| * d] == Flatten(ad);
    assert Pack(ad, ps)[|ad| * d..] == Flatten(ps);
    UnflattenFlatten(ad, d);
    UnflattenFlatten(ps, d);
  }

  /** `get_starting_point` after `finalize_solution(x)` reproduces `x`. */
  lemma PackUnpack(ad: seq<Vertex>, ps: seq<Vertex>, x: seq<real>, d: nat)
    requires |x| == d * (|ad| + |ps|)
    ensures Pack(Unflatten(ad, x[..|ad| * d], d), Unflatten(ps, x[|ad| * d..], d)) == x
  {
    Distribute(d, |ad|, |ps|);
    MulMono(0, |ps|, d);
    var lo, hi := x[..|ad| * d], x[|ad| * d..];
    FlattenUnflatten(ad, lo, d);
    FlattenUnflatten(ps, hi, d);
    assert x == lo + hi;
  }

  // ---- reweighting ----

  /** `b` has the vertices of `a`, in the same order, with the same ids. */
  predicate SameIds(a: seq<Vertex>, b: seq<Vertex>)
  {
    |a| == |b| && forall i :: 0 <= i < |a| ==> a[i].id == b[i].id
  }

  /** Unflattening keeps the vertices' ids and gives each of them `d` weights. */
  lemma UnflattenIds(vs: seq<Vertex>, x: seq<real>, d: nat)
    requires |x| == |vs| * d
    ensures SameIds(Unflatten(vs, x, d), vs)
    ensures Uniform(Unflatten(vs, x, d), d)
  {
    UnflattenLength(vs, x, d);
    forall i | 0 <= i < |vs|
      ensures Unflatten(vs, x, d)[i].id == vs[i].id
    {
      UnflattenId(vs, x, d, i);
    }
  }

  lemma {:induction false} UnflattenId(vs: seq<Vertex>, x: seq<real>, d: nat, i: nat)
    requires |x| == |vs| * d
    requires i < |vs|
    ensures |Unflatten(vs, x, d)| == |vs|
    ensures Unflatten(vs, x, d)[i].id == vs[i].id
  {
    var n := |vs| - 1;
    MulSucc(n, d);
    UnflattenLength(vs[..n], x[..n * d], d);
    if i < n {
      UnflattenId(vs[..n], x[..n * d], d, i);
    }
  }

  /** Entries `[i*d, i*d + d)` of `x`: the weights of vertex `i`, or empty outside `x`. */
  function Chunk(x: seq<real>, i: int, d: nat): seq<real>
  {
    if 0 <= i && 0 <= i * d && i * d + d <= |x| then x[i * d..i * d + d] else []
  }

  /** Vertex `i` of `Unflatten` keeps its id and takes chunk `i` of `x` as its weights. */
  lemma UnflattenVertex(vs: seq<Vertex>, x: seq<real>, d: nat, i: nat)
    requires |x| == |vs| * d && i < |vs|
    ensures |Unflatten(vs, x, d)| == |vs|
    ensures Unflatten(vs, x, d)[i] == Vertex(vs[i].id, Chunk(x, i, d))
  {
    BlockEnd(i, d, |vs|);
    MulMono(0, i, d);
    UnflattenIds(vs, x, d);
    var w := Unflatten(vs, x, d)[i].weights;
    forall j | 0 <= j < d
      ensures w[j] == Chunk(x, i, d)[j]
    {
      UnflattenAt(vs, x, d, i, j);
    }
  }

  /** A vertex sequence whose vertex `i` has the id of `vs[i]` and chunk `i` of `x` as weights is `Unflatten`. */
  lemma UnflattenChunks(vs: seq<Vertex>, x: seq<real>, d: nat, r: seq<Vertex>)
    requires |x| == |vs| * d && |r| == |vs|
    requires forall i :: 0 <= i < |r| ==> r[i] == Vertex(vs[i].id, Chunk(x, i, d))
    ensures r == Unflatten(vs, x, d)
  {
    UnflattenLength(vs, x, d);
    forall i | 0 <= i < |r|
      ensures r[i] == Unflatten(vs, x, d)[i]
    {
      UnflattenVertex(vs, x, d, i);
    }
  }

  // ---- edge blocks ----

  /**
   * The weights of source `i` occupy `[i*d, i*d + d)` inside the source block,
   * those of target `k` occupy `[nAd*d + k*d, nAd*d + k*d + d)` inside the
   * target block.
   */
  lemma EdgeBlocks(d: nat, nAd: nat, nPs: nat, i: int, k: int)
    requires 0 <= i < nAd && 0 <= k < nPs
    ensures 0 <= i * d && i * d + d <= nAd * d
    ensures 0 <= k * d && nAd * d + k * d + d <= d * (nAd + nPs)
  {
    MulSucc(i, d);
    MulMono(i + 1, nAd, d);
    MulSucc(k, d);
    MulMono(k + 1, nPs, d);
    Distribute(d, nAd, nPs);
  }

  /** The block of vertex `i < n` ends within the first `n` blocks. */
  lemma BlockEnd(i: nat, d: nat, n: nat)
    requires i < n
    ensures i * d + d <= n * d
  {
    MulSucc(i, d);
    MulMono(i + 1, n, d);
  }

  lemma Distribute(d: nat, a: nat, b: nat)
    ensures d * (a + b) == a * d + b * d
  {
  }

  /** Every position of the block `[i*d, i*d + d)` belongs to vertex `i`. */
  lemma BlockOf(i: nat, d: nat, t: int)
    requires i * d <= t < i * d + d
    ensures t / d == i
  {
    SlotDivMod(i, t - i * d, d);
  }
}
