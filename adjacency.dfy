/**
 * The adjacency of the bipartite graph (`graph_` in include/problem.h): one
 * map per source index, keyed by target index, so that each (source, target)
 * pair holds at most one observation. Storing an observation first grows the
 * vector with empty maps until the source index exists, then assigns the
 * pair's entry, overwriting an earlier one.
 */
module Adjacency {

  /** `ViewClick`: the view and click counts of one (source, target) pair. */
  datatype ViewClick = ViewClick(view: int, click: int)

  type Graph = seq<map<int, ViewClick>>

  function Max(a: int, b: int): int
  {
    if a < b then b else a
  }

  /** Row `i` of `g`, or the empty map where `g` has no row `i` yet. */
  function Row(g: Graph, i: nat): map<int, ViewClick>
  {
    if i < |g| then g[i] else map[]
  }

  /** `g` padded with empty maps to at least `n` rows. */
  function Grown(g: Graph, n: nat): (r: Graph)
    ensures |r| == Max(|g|, n)
    ensures forall i :: 0 <= i < |r| ==> r[i] == Row(g, i)
  {
    if |g| >= n then g else g + seq(n - |g|, _ => map[])
  }

  /** `graph_[a][p] = vc` after growing `graph_` to hold row `a`. */
  function Store(g: Graph, a: nat, p: int, vc: ViewClick): (r: Graph)
    ensures |r| == Max(|g|, a + 1)
    ensures r[a] == Row(g, a)[p := vc]
    ensures forall i :: 0 <= i < |r| && i != a ==> r[i] == Row(g, i)
  {
    var h := Grown(g, a + 1);
    h[a := h[a][p := vc]]
  }

  /** One assignment `graph_[src][dst] = vc`. */
  datatype Write = Write(src: nat, dst: int, vc: ViewClick)

  /** The writes of `ws` applied to `g` in order. */
  function StoreAll(g: Graph, ws: seq<Write>): Graph
  {
    if ws == [] then g
    else
      var w := ws[|ws| - 1];
      Store(StoreAll(g, ws[..|ws| - 1]), w.src, w.dst, w.vc)
  }

  /** One more write is one more store on top of the others. */
  lemma StoreAllSnoc(g: Graph, ws: seq<Write>, w: Write)
    ensures StoreAll(g, ws + [w]) == Store(StoreAll(g, ws), w.src, w.dst, w.vc)
  {
    assert (ws + [w])[..|ws|] == ws;
  }

  /** Number of (source, target) pairs holding an observation. */
  function EdgeCount(g: Graph): nat
  {
    if g == [] then 0 else EdgeCount(g[..|g| - 1]) + |g[|g| - 1]|
  }

  /** No write after position `k` of `ws` addresses the pair written at `k`. */
  predicate LastForPair(ws: seq<Write>, k: nat)
    requires k < |ws|
  {
    forall k' :: k < k' < |ws| ==> ws[k'].src != ws[k].src || ws[k'].dst != ws[k].dst
  }

  /** No write of `ws` addresses the pair (`i`, `key`). */
  predicate Untouched(ws: seq<Write>, i: nat, key: int)
  {
    forall k :: 0 <= k < |ws| ==> ws[k].src != i || ws[k].dst != key
  }

  /** Storing never shrinks the vector, and every written row exists afterwards. */
  lemma {:induction false} StoreAllLength(g: Graph, ws: seq<Write>)
    ensures |StoreAll(g, ws)| >= |g|
    ensures forall k :: 0 <= k < |ws| ==> ws[k].src < |StoreAll(g, ws)|
  {
    if ws != [] {
      StoreAllLength(g, ws[..|ws| - 1]);
    }
  }

  /** The last write to a pair is the value the pair holds: later duplicates overwrite earlier ones. */
  lemma {:induction false} StoreAllLastWins(g: Graph, ws: seq<Write>, k: nat)
    requires k < |ws| && LastForPair(ws, k)
    ensures ws[k].src < |StoreAll(g, ws)|
    ensures ws[k].dst in StoreAll(g, ws)[ws[k].src]
    ensures StoreAll(g, ws)[ws[k].src][ws[k].dst] == ws[k].vc
  {
    var n := |ws| - 1;
    var front := ws[..n];
    var w, v := ws[n], ws[k];
    var r0 := StoreAll(g, front);
    assert StoreAll(g, ws) == Store(r0, w.src, w.dst, w.vc);
    if k < n {
      assert LastForPair(front, k) by {
        forall k' | k < k' < |front| ensures front[k'].src != front[k].src || front[k'].dst != front[k].dst {
          assert front[k'] == ws[k'];
        }
      }
      StoreAllLastWins(g, front, k);
      assert front[k] == v;
      assert w.src != v.src || w.dst != v.dst;
      assert Row(r0, v.src) == r0[v.src];
    }
  }

  /** A pair that no write addresses keeps exactly what it held. */
  lemma {:induction false} StoreAllUntouched(g: Graph, ws: seq<Write>, i: nat, key: int)
    requires Untouched(ws, i, key)
    ensures key in Row(StoreAll(g, ws), i) <==> key in Row(g, i)
    ensures key in Row(g, i) ==> Row(StoreAll(g, ws), i)[key] == Row(g, i)[key]
  {
    if ws != [] {
      var n := |ws| - 1;
      assert Untouched(ws[..n], i, key) by {
        forall k | 0 <= k < n ensures ws[..n][k].src != i || ws[..n][k].dst != key {
          assert ws[..n][k] == ws[k];
        }
      }
      StoreAllUntouched(g, ws[..n], i, key);
      assert ws[n].src != i || ws[n].dst != key;
    }
  }

  lemma {:induction false} EdgeCountAppend(g: Graph, m: map<int, ViewClick>)
    ensures EdgeCount(g + [m]) == EdgeCount(g) + |m|
  {
    assert (g + [m])[..|g|] == g;
  }

  lemma {:induction false} EdgeCountGrown(g: Graph, n: nat)
    ensures EdgeCount(Grown(g, n)) == EdgeCount(g)
    decreases n
  {
    if |g| < n {
      var pad := seq(n - |g|, _ => map[]);
      var h := g + pad;
      assert h[..|h| - 1] == Grown(g, n - 1);
      EdgeCountGrown(g, n - 1);
    }
  }

  lemma {:induction false} EdgeCountUpdate(g: Graph, a: nat, m: map<int, ViewClick>)
    requires a < |g|
    ensures EdgeCount(g[a := m]) + |g[a]| == EdgeCount(g) + |m|
  {
    var n := |g| - 1;
    var h := g[a := m];
    if a < n {
      assert h[..n] == g[..n][a := m];
      EdgeCountUpdate(g[..n], a, m);
    } else {
      assert h[..n] == g[..n];
    }
  }

  /** One store adds at most one pair. */
  lemma EdgeCountStore(g: Graph, a: nat, p: int, vc: ViewClick)
    ensures EdgeCount(Store(g, a, p, vc)) <= EdgeCount(g) + 1
  {
    var h := Grown(g, a + 1);
    EdgeCountGrown(g, a + 1);
    EdgeCountUpdate(h, a, h[a][p := vc]);
    assert |h[a][p := vc]| <= |h[a]| + 1;
  }

  /** Storing `|ws|` writes adds at most `|ws|` pairs: the pair count never exceeds the line count. */
  lemma {:induction false} EdgeCountStoreAll(g: Graph, ws: seq<Write>)
    ensures EdgeCount(StoreAll(g, ws)) <= EdgeCount(g) + |ws|
  {
    if ws != [] {
      var n := |ws| - 1;
      EdgeCountStoreAll(g, ws[..n]);
      EdgeCountStore(StoreAll(g, ws[..n]), ws[n].src, ws[n].dst, ws[n].vc);
    }
  }
}
