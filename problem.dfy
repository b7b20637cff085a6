/**
 * include/problem.h and src/problem.cc: the `Problem` object that holds the
 * two sides of the bipartite graph, the adjacency and the hyperparameters,
 * and `SetMatrix`, which loads `name \t click \t view` lines into it.
 */
module Problems {
  import opened CMath
  import opened Strings
  import opened Vertices
  import opened Layout
  import opened Adjacency

  const Tab: char := '\t'
  const Hash: char := '#'

  /** One accepted input line: source id, target id, click and view counts. */
  datatype Observation = Observation(ad: string, ps: string, click: int, view: int)

  /** What `SetMatrix` makes of one line, in the order it checks. */
  datatype Parsed =
    | WrongFieldCount   // the tab split does not give 3 fields
    | FilteredOut       // the click filter is on and the click count is 0
    | WrongName         // the name does not split on '#' into 2 ids
    | Accepted(obs: Observation)

  /** The line `ad#ps \t click \t view`. */
  function Format(ad: string, ps: string, click: string, view: string): string
  {
    ad + [Hash] + ps + [Tab] + click + [Tab] + view
  }

  /**
   * The checks of one loop iteration of `SetMatrix`, before it touches the
   * state: split on tabs, read the counts (`toInt` stands for
   * `StringToInt`), apply the click filter, split the name on '#'.
   */
  function ParseLine(line: string, filter: bool, toInt: string -> int): (r: Parsed)
    ensures r.WrongFieldCount? <==> Count(line, Tab) != 2
    ensures r.Accepted? ==> !(filter && r.obs.click == 0)
    ensures r.Accepted? ==> Tab !in r.obs.ad && Hash !in r.obs.ad && Tab !in r.obs.ps && Hash !in r.obs.ps
  {
    var tokens := Split(line, Tab);
    SplitFieldCount(line, Tab);
    if |tokens| != 3 then WrongFieldCount
    else
      var click := toInt(tokens[1]);
      var view := toInt(tokens[2]);
      if filter && click == 0 then FilteredOut
      else
        var names := Split(tokens[0], Hash);
        SplitKeepsAbsent(tokens[0], Hash, Tab);
        if |names| != 2 then WrongName
        else Accepted(Observation(names[0], names[1], click, view))
  }

  /** Which lines are skipped, and why, in terms of separator counts. */
  lemma ParseLineVerdicts(line: string, filter: bool, toInt: string -> int)
    ensures var f := Split(line, Tab);
      Count(line, Tab) == 2 ==>
        && |f| == 3
        && (ParseLine(line, filter, toInt).FilteredOut? <==> filter && toInt(f[1]) == 0)
        && (ParseLine(line, filter, toInt).WrongName? <==>
              !(filter && toInt(f[1]) == 0) && Count(f[0], Hash) != 1)
  {
    SplitFieldCount(line, Tab);
    var f := Split(line, Tab);
    if |f| == 3 {
      SplitFieldCount(f[0], Hash);
    }
  }

  /** An accepted line is exactly the formatted line of its ids and its two count fields. */
  lemma ParseLineAccepted(line: string, filter: bool, toInt: string -> int)
    requires ParseLine(line, filter, toInt).Accepted?
    ensures var o := ParseLine(line, filter, toInt).obs;
      var f := Split(line, Tab);
      |f| == 3 && line == Format(o.ad, o.ps, f[1], f[2]) &&
      o.click == toInt(f[1]) && o.view == toInt(f[2])
  {
    var f := Split(line, Tab);
    var names := Split(f[0], Hash);
    JoinSplit(line, Tab);
    JoinSplit(f[0], Hash);
    assert Join(names, Hash) == names[0] + [Hash] + names[1];
    assert f[1..][1..] == [f[2]];
    assert Join(f[1..], Tab) == f[1] + [Tab] + f[2];
    assert Join(f, Tab) == f[0] + [Tab] + (f[1] + [Tab] + f[2]);
  }

  /** A well-formed line parses into its ids and counts, unless the click filter drops it. */
  lemma ParseFormatted(ad: string, ps: string, click: string, view: string,
                       filter: bool, toInt: string -> int)
    requires Tab !in ad && Hash !in ad && Tab !in ps && Hash !in ps
    requires Tab !in click && Tab !in view
    ensures ParseLine(Format(ad, ps, click, view), filter, toInt) ==
      if filter && toInt(click) == 0 then FilteredOut
      else Accepted(Observation(ad, ps, toInt(click), toInt(view)))
  {
    var name := ad + [Hash] + ps;
    assert Join([ad, ps], Hash) == name;
    SplitJoin([ad, ps], Hash);
    assert Tab !in name;
    var parts := [name, click, view];
    assert parts[1..] == [click, view] && parts[1..][1..] == [view];
    assert Join(parts[1..], Tab) == click + [Tab] + view;
    assert Join(parts, Tab) == name + [Tab] + (click + [Tab] + view);
    assert Join(parts, Tab) == Format(ad, ps, click, view);
    SplitJoin([name, click, view], Tab);
  }

  /** The observations of the accepted lines, in input order. */
  function AcceptedLines(lines: seq<string>, filter: bool, toInt: string -> int): seq<Observation>
  {
    if lines == [] then []
    else
      var front := AcceptedLines(lines[..|lines| - 1], filter, toInt);
      match ParseLine(lines[|lines| - 1], filter, toInt)
      case Accepted(o) => front + [o]
      case _ => front
  }

  function SourceIds(obs: seq<Observation>): set<string>
  {
    if obs == [] then {} else SourceIds(obs[..|obs| - 1]) + {obs[|obs| - 1].ad}
  }

  function TargetIds(obs: seq<Observation>): set<string>
  {
    if obs == [] then {} else TargetIds(obs[..|obs| - 1]) + {obs[|obs| - 1].ps}
  }

  lemma {:induction false} IdsOfObservations(obs: seq<Observation>, k: nat)
    requires k < |obs|
    ensures obs[k].ad in SourceIds(obs) && obs[k].ps in TargetIds(obs)
  {
    if k < |obs| - 1 {
      IdsOfObservations(obs[..|obs| - 1], k);
    }
  }

  /** Every observation's ids are interned in the maps. */
  predicate Known(obs: seq<Observation>, adMap: map<string, nat>, psMap: map<string, nat>)
  {
    forall k :: 0 <= k < |obs| ==> obs[k].ad in adMap && obs[k].ps in psMap
  }

  /** The observations as adjacency assignments, through the id maps. */
  function WritesOf(obs: seq<Observation>, adMap: map<string, nat>, psMap: map<string, nat>): (ws: seq<Write>)
    requires Known(obs, adMap, psMap)
    ensures |ws| == |obs|
  {
    if obs == [] then []
    else
      var o := obs[|obs| - 1];
      WritesOf(obs[..|obs| - 1], adMap, psMap) + [Write(adMap[o.ad], psMap[o.ps], ViewClick(o.view, o.click))]
  }

  /** Maps that only grow give the same writes for observations already known. */
  lemma {:induction false} WritesOfStable(obs: seq<Observation>, m1: map<string, nat>, p1: map<string, nat>,
                                          m2: map<string, nat>, p2: map<string, nat>)
    requires Known(obs, m1, p1)
    requires forall id :: id in m1 ==> id in m2 && m2[id] == m1[id]
    requires forall id :: id in p1 ==> id in p2 && p2[id] == p1[id]
    ensures Known(obs, m2, p2)
    ensures WritesOf(obs, m1, p1) == WritesOf(obs, m2, p2)
  {
    if obs != [] {
      WritesOfStable(obs[..|obs| - 1], m1, p1, m2, p2);
    }
  }

  /**
   * One side's interning: `m` sends each id to its position in `vs`, and
   * each vertex's id to its own position; so there are as many ids as
   * vertices.
   */
  predicate Interned(m: map<string, nat>, vs: seq<Vertex>)
  {
    && |m| == |vs|
    && (forall id :: id in m ==> m[id] < |vs| && vs[m[id]].id == id)
    && (forall i :: 0 <= i < |vs| ==> vs[i].id in m && m[vs[i].id] == i)
  }

  /** The map's values are exactly `0 .. |vs| - 1`, and ids are unique within the side. */
  lemma InternedIndices(m: map<string, nat>, vs: seq<Vertex>)
    requires Interned(m, vs)
    ensures forall i: nat :: i in m.Values <==> i < |vs|
    ensures m.Keys == set i | 0 <= i < |vs| :: vs[i].id
    ensures forall i, j :: 0 <= i < |vs| && 0 <= j < |vs| && vs[i].id == vs[j].id ==> i == j
  {
    forall i: nat | i < |vs| ensures i in m.Values {
      assert m[vs[i].id] in m.Values;
    }
    forall id | id in m ensures id in set i | 0 <= i < |vs| :: vs[i].id {
      assert vs[m[id]].id == id;
    }
  }

  /** Storing an in-range pair keeps every adjacency key below the target count. */
  lemma StoreKeepsRange(g: Graph, a: nat, p: int, vc: ViewClick, nPs: nat)
    requires forall i, k :: 0 <= i < |g| && k in g[i] ==> 0 <= k < nPs
    requires 0 <= p < nPs
    ensures var r := Store(g, a, p, vc);
      forall i, k :: 0 <= i < |r| && k in r[i] ==> 0 <= k < nPs
  {
  }

  /** The fields of a `Problem` that `SetMatrix` writes, as one value. */
  datatype Data = Data(adMap: map<string, nat>, adVec: seq<Vertex>,
                       psMap: map<string, nat>, psVec: seq<Vertex>,
                       graph: Graph, graphSize: int)

  /**
   * The graph invariant that `SetMatrix` maintains: both sides interned,
   * every vertex with `d` weights, one adjacency row per source vertex,
   * every adjacency key a target index.
   */
  predicate Loaded(s: Data, d: nat)
  {
    && Interned(s.adMap, s.adVec)
    && Interned(s.psMap, s.psVec)
    && Uniform(s.adVec, d) && Uniform(s.psVec, d)
    && |s.graph| == |s.adVec|
    && (forall i, k :: 0 <= i < |s.graph| && k in s.graph[i] ==> 0 <= k < |s.psVec|)
    && s.graphSize >= 0
  }

  /**
   * `s` is `s0` after recording observation `o`: each id not seen before is
   * interned (its index is the side's size, its vertex draws `d` coordinates
   * from `draws` starting at `drawn`, the source's side first), the
   * observation is stored for the pair, overwriting an earlier one, and the
   * line is counted.
   */
  predicate Recorded(o: Observation, d: nat, m: Libm, draws: nat -> nat, drawn: nat,
                     s0: Data, s: Data, drawnAfter: nat)
  {
    var newAd := o.ad !in s0.adMap;
    var newPs := o.ps !in s0.psMap;
    var psStart := if newAd then drawn + d else drawn;
    && s.adMap == (if newAd then s0.adMap[o.ad := |s0.adVec|] else s0.adMap)
    && s.adVec == s0.adVec + (if newAd then [Vertex(o.ad, InitialWeights(m, d, draws, drawn))] else [])
    && s.psMap == (if newPs then s0.psMap[o.ps := |s0.psVec|] else s0.psMap)
    && s.psVec == s0.psVec + (if newPs then [Vertex(o.ps, InitialWeights(m, d, draws, psStart))] else [])
    && drawnAfter == (if newPs then psStart + d else psStart)
    && o.ad in s.adMap && o.ps in s.psMap
    && s.graph == Store(s0.graph, s.adMap[o.ad], s.psMap[o.ps], ViewClick(o.view, o.click))
    && s.graphSize == s0.graphSize + 1
  }

  /**
   * The accepted branch of the `SetMatrix` loop body: intern both ids, grow
   * the adjacency to the source's row, store the observation, count the line.
   */
  method Record(o: Observation, d: nat, m: Libm, draws: nat -> nat, drawn: nat, s0: Data)
    returns (s: Data, drawnAfter: nat)
    ensures Recorded(o, d, m, draws, drawn, s0, s, drawnAfter)
    ensures (s, drawnAfter) == Step(o, d, m, draws, drawn, s0)
  {
    var adMap, adVec, dn := Intern(s0.adMap, s0.adVec, o.ad, d, m, draws, drawn);
    var psMap, psVec, dn' := Intern(s0.psMap, s0.psVec, o.ps, d, m, draws, dn);
    var vc := ViewClick(o.view, o.click);
    var graph := StoreRow(s0.graph, adMap[o.ad], psMap[o.ps], vc);
    s := Data(adMap, adVec, psMap, psVec, graph, s0.graphSize + 1);
    drawnAfter := dn';
    RecordedFrom(o, d, m, draws, drawn, s0, s, dn, drawnAfter);
    var r := Step(o, d, m, draws, drawn, s0);
    StepRecorded(o, d, m, draws, drawn, s0);
    RecordedUnique(o, d, m, draws, drawn, s0, s, drawnAfter, r.0, r.1);
  }

  /**
   * The data and the next unused draw after recording `o` on top of `s0`,
   * with the draws from `drawn` on still unused.
   */
  function Step(o: Observation, d: nat, m: Libm, draws: nat -> nat, drawn: nat, s0: Data): (Data, nat)
  {
    var newAd := o.ad !in s0.adMap;
    var newPs := o.ps !in s0.psMap;
    var psStart := if newAd then drawn + d else drawn;
    var adMap := if newAd then s0.adMap[o.ad := |s0.adVec|] else s0.adMap;
    var psMap := if newPs then s0.psMap[o.ps := |s0.psVec|] else s0.psMap;
    var adVec := s0.adVec + (if newAd then [Vertex(o.ad, InitialWeights(m, d, draws, drawn))] else []);
    var psVec := s0.psVec + (if newPs then [Vertex(o.ps, InitialWeights(m, d, draws, psStart))] else []);
    var graph := Store(s0.graph, adMap[o.ad], psMap[o.ps], ViewClick(o.view, o.click));
    (Data(adMap, adVec, psMap, psVec, graph, s0.graphSize + 1), if newPs then psStart + d else psStart)
  }

  /** `Step` records the observation as `Recorded` describes. */
  lemma StepRecorded(o: Observation, d: nat, m: Libm, draws: nat -> nat, drawn: nat, s0: Data)
    ensures var r := Step(o, d, m, draws, drawn, s0);
      Recorded(o, d, m, draws, drawn, s0, r.0, r.1)
  {
  }

  /** Recording one observation has exactly one outcome: `Recorded` determines the data and the draws used. */
  lemma RecordedUnique(o: Observation, d: nat, m: Libm, draws: nat -> nat, drawn: nat,
                       s0: Data, s: Data, drawnAfter: nat, s': Data, drawnAfter': nat)
    requires Recorded(o, d, m, draws, drawn, s0, s, drawnAfter)
    requires Recorded(o, d, m, draws, drawn, s0, s', drawnAfter')
    ensures s == s' && drawnAfter == drawnAfter'
  {
  }

  /** Recording an observation keeps the graph invariant. */
  lemma RecordedKeepsLoaded(o: Observation, d: nat, m: Libm, draws: nat -> nat, drawn: nat,
                            s0: Data, s: Data, drawnAfter: nat)
    requires Loaded(s0, d)
    requires Recorded(o, d, m, draws, drawn, s0, s, drawnAfter)
    ensures Loaded(s, d)
  {
    var psStart := if o.ad !in s0.adMap then drawn + d else drawn;
    InternedAdd(s0.adMap, s0.adVec, o.ad, d, m, draws, drawn);
    InternedAdd(s0.psMap, s0.psVec, o.ps, d, m, draws, psStart);
    StoredLoaded(s0, s, d, s.adMap[o.ad], s.psMap[o.ps], ViewClick(o.view, o.click));
  }

  /**
   * Recording an observation grows the flat parameter vector by `d` entries
   * for each of its two ids seen for the first time, and by nothing otherwise.
   */
  lemma RecordedDims(o: Observation, d: nat, m: Libm, draws: nat -> nat, drawn: nat,
                     s0: Data, s: Data, drawnAfter: nat)
    requires Recorded(o, d, m, draws, drawn, s0, s, drawnAfter)
    ensures var added := (if o.ad in s0.adMap then 0 else 1) + (if o.ps in s0.psMap then 0 else 1);
      d * (|s.adVec| + |s.psVec|) == d * (|s0.adVec| + |s0.psVec|) + added * d
  {
    var added := (if o.ad in s0.adMap then 0 else 1) + (if o.ps in s0.psMap then 0 else 1);
    assert |s.adVec| + |s.psVec| == |s0.adVec| + |s0.psVec| + added;
    Distribute(d, |s0.adVec| + |s0.psVec|, added);
  }

  /** Interning one id, seen before or not, keeps the side interned and sized. */
  lemma InternedAdd(idMap: map<string, nat>, vs: seq<Vertex>, id: string, d: nat,
                    m: Libm, draws: nat -> nat, start: nat)
    requires Interned(idMap, vs) && Uniform(vs, d)
    ensures var idMap' := if id in idMap then idMap else idMap[id := |vs|];
      var vs' := vs + if id in idMap then [] else [Vertex(id, InitialWeights(m, d, draws, start))];
      Interned(idMap', vs') && Uniform(vs', d) && idMap'[id] < |vs'|
  {
  }

  /** The two interning steps and the store, side by side, are `Recorded`. */
  lemma RecordedFrom(o: Observation, d: nat, m: Libm, draws: nat -> nat, drawn: nat,
                     s0: Data, s: Data, dn: nat, drawnAfter: nat)
    requires s.adMap == if o.ad in s0.adMap then s0.adMap else s0.adMap[o.ad := |s0.adVec|]
    requires s.adVec == s0.adVec + if o.ad in s0.adMap then [] else [Vertex(o.ad, InitialWeights(m, d, draws, drawn))]
    requires dn == if o.ad in s0.adMap then drawn else drawn + d
    requires s.psMap == if o.ps in s0.psMap then s0.psMap else s0.psMap[o.ps := |s0.psVec|]
    requires s.psVec == s0.psVec + if o.ps in s0.psMap then [] else [Vertex(o.ps, InitialWeights(m, d, draws, dn))]
    requires drawnAfter == if o.ps in s0.psMap then dn else dn + d
    requires s.graph == Store(s0.graph, s.adMap[o.ad], s.psMap[o.ps], ViewClick(o.view, o.click))
    requires s.graphSize == s0.graphSize + 1
    ensures Recorded(o, d, m, draws, drawn, s0, s, drawnAfter)
  {
  }

  /**
   * Interning both ids and storing one pair into the source's row keeps the
   * graph invariant: the row exists, and the key is a target index.
   */
  lemma StoredLoaded(s0: Data, s: Data, d: nat, a: nat, p: nat, vc: ViewClick)
    requires Loaded(s0, d)
    requires Interned(s.adMap, s.adVec) && Interned(s.psMap, s.psVec)
    requires Uniform(s.adVec, d) && Uniform(s.psVec, d)
    requires |s.adVec| == Max(|s0.adVec|, a + 1) && |s0.psVec| <= |s.psVec| && p < |s.psVec|
    requires s.graph == Store(s0.graph, a, p, vc) && s.graphSize == s0.graphSize + 1
    ensures Loaded(s, d)
  {
    StoreKeepsRange(s0.graph, a, p, vc, |s.psVec|);
  }

  /**
   * One iteration of the `SetMatrix` loop: a skipped line leaves the data
   * alone, an accepted one is recorded.
   */
  method TakeLine(line: string, filter: bool, toInt: string -> int, d: nat, m: Libm, draws: nat -> nat,
                  drawn: nat, s0: Data)
    returns (accepted: bool, s: Data, drawnAfter: nat)
    ensures accepted == ParseLine(line, filter, toInt).Accepted?
    ensures !accepted ==> s == s0 && drawnAfter == drawn
    ensures accepted ==> (s, drawnAfter) == Step(ParseLine(line, filter, toInt).obs, d, m, draws, drawn, s0)
  {
    var parsed := ParseLine(line, filter, toInt);
    if parsed.Accepted? {
      accepted := true;
      s, drawnAfter := Record(parsed.obs, d, m, draws, drawn, s0);
    } else {
      accepted, s, drawnAfter := false, s0, drawn;
    }
  }

  /**
   * `s` is `s0` with the observations `obs` recorded in order:
   * `graph_size_` counts them; each side's map gains exactly their ids and
   * keeps the indices it had; the vectors only grow; the adjacency is the
   * old one with the observations stored in order, so the last one for a
   * pair wins.
   */
  predicate RecordedAll(s0: Data, obs: seq<Observation>, s: Data)
  {
    InternedAll(s0, obs, s) && StoredAll(s0, obs, s)
  }

  /** The counting and interning half of `RecordedAll`. */
  predicate InternedAll(s0: Data, obs: seq<Observation>, s: Data)
  {
    && s.graphSize == s0.graphSize + |obs|
    && s.adMap.Keys == s0.adMap.Keys + SourceIds(obs)
    && s.psMap.Keys == s0.psMap.Keys + TargetIds(obs)
    && (forall id :: id in s0.adMap ==> id in s.adMap && s.adMap[id] == s0.adMap[id])
    && (forall id :: id in s0.psMap ==> id in s.psMap && s.psMap[id] == s0.psMap[id])
    && s0.adVec <= s.adVec && s0.psVec <= s.psVec
  }

  /** The adjacency half of `RecordedAll`. */
  predicate StoredAll(s0: Data, obs: seq<Observation>, s: Data)
  {
    && Known(obs, s.adMap, s.psMap)
    && s.graph == StoreAll(s0.graph, WritesOf(obs, s.adMap, s.psMap))
  }

  /** Recording one more observation extends `RecordedAll`. */
  lemma RecordedAllSnoc(s0: Data, obs: seq<Observation>, o: Observation, d: nat, m: Libm, draws: nat -> nat,
                        drawn: nat, s1: Data, s: Data, drawnAfter: nat)
    requires RecordedAll(s0, obs, s1)
    requires Recorded(o, d, m, draws, drawn, s1, s, drawnAfter)
    ensures RecordedAll(s0, obs + [o], s)
  {
    RecordedGrows(o, d, m, draws, drawn, s1, s, drawnAfter);
    InternedAllSnoc(s0, obs, o, s1, s);
    StoredAllSnoc(s0, obs, o, s1, s);
  }

  /** The interning half of `RecordedAllSnoc`. */
  lemma InternedAllSnoc(s0: Data, obs: seq<Observation>, o: Observation, s1: Data, s: Data)
    requires InternedAll(s0, obs, s1)
    requires s.graphSize == s1.graphSize + 1
    requires s.adMap.Keys == s1.adMap.Keys + {o.ad} && s.psMap.Keys == s1.psMap.Keys + {o.ps}
    requires forall id :: id in s1.adMap ==> id in s.adMap && s.adMap[id] == s1.adMap[id]
    requires forall id :: id in s1.psMap ==> id in s.psMap && s.psMap[id] == s1.psMap[id]
    requires s1.adVec <= s.adVec && s1.psVec <= s.psVec
    ensures InternedAll(s0, obs + [o], s)
  {
    SnocIds(obs, o);
  }

  /** The adjacency half of `RecordedAllSnoc`. */
  lemma StoredAllSnoc(s0: Data, obs: seq<Observation>, o: Observation, s1: Data, s: Data)
    requires StoredAll(s0, obs, s1)
    requires o.ad in s.adMap && o.ps in s.psMap
    requires forall id :: id in s1.adMap ==> id in s.adMap && s.adMap[id] == s1.adMap[id]
    requires forall id :: id in s1.psMap ==> id in s.psMap && s.psMap[id] == s1.psMap[id]
    requires s.graph == Store(s1.graph, s.adMap[o.ad], s.psMap[o.ps], ViewClick(o.view, o.click))
    ensures StoredAll(s0, obs + [o], s)
  {
    WritesOfStable(obs, s1.adMap, s1.psMap, s.adMap, s.psMap);
    SnocWrites(obs, o, s.adMap, s.psMap);
    StoreAllSnoc(s0.graph, WritesOf(obs, s.adMap, s.psMap),
                 Write(s.adMap[o.ad], s.psMap[o.ps], ViewClick(o.view, o.click)));
  }

  /** The ids of one more observation. */
  lemma SnocIds(obs: seq<Observation>, o: Observation)
    ensures SourceIds(obs + [o]) == SourceIds(obs) + {o.ad}
    ensures TargetIds(obs + [o]) == TargetIds(obs) + {o.ps}
  {
    assert (obs + [o])[..|obs|] == obs;
  }

  /** The writes of one more observation whose ids are known. */
  lemma SnocWrites(obs: seq<Observation>, o: Observation, adMap: map<string, nat>, psMap: map<string, nat>)
    requires Known(obs, adMap, psMap) && o.ad in adMap && o.ps in psMap
    ensures Known(obs + [o], adMap, psMap)
    ensures WritesOf(obs + [o], adMap, psMap) ==
      WritesOf(obs, adMap, psMap) + [Write(adMap[o.ad], psMap[o.ps], ViewClick(o.view, o.click))]
  {
    var obs' := obs + [o];
    assert obs'[..|obs|] == obs;
    forall k | 0 <= k < |obs'| ensures obs'[k].ad in adMap && obs'[k].ps in psMap {
      if k < |obs| {
        assert obs'[k] == obs[k];
      }
    }
  }

  /** Recording an observation keeps every index each side already had, and only appends vertices. */
  lemma RecordedGrows(o: Observation, d: nat, m: Libm, draws: nat -> nat, drawn: nat,
                      s0: Data, s: Data, drawnAfter: nat)
    requires Recorded(o, d, m, draws, drawn, s0, s, drawnAfter)
    ensures s.adMap.Keys == s0.adMap.Keys + {o.ad} && s.psMap.Keys == s0.psMap.Keys + {o.ps}
    ensures forall id :: id in s0.adMap ==> id in s.adMap && s.adMap[id] == s0.adMap[id]
    ensures forall id :: id in s0.psMap ==> id in s.psMap && s.psMap[id] == s0.psMap[id]
    ensures s0.adVec <= s.adVec && s0.psVec <= s.psVec
  {
  }

  /** Recording no observation leaves the data as it is. */
  lemma RecordedNothing(s0: Data)
    ensures RecordedAll(s0, [], s0)
  {
    assert s0.adVec <= s0.adVec && s0.psVec <= s0.psVec;
  }

  /** The accepted lines of one more line. */
  lemma AcceptedLinesStep(lines: seq<string>, i: nat, filter: bool, toInt: string -> int)
    requires i < |lines|
    ensures var p := ParseLine(lines[i], filter, toInt);
      AcceptedLines(lines[..i + 1], filter, toInt) ==
        if p.Accepted? then AcceptedLines(lines[..i], filter, toInt) + [p.obs]
        else AcceptedLines(lines[..i], filter, toInt)
  {
    assert lines[..i + 1][..i] == lines[..i];
  }

  /**
   * The observations `obs` recorded one after the other on top of `s0`, the
   * first of them drawing from `drawn` on: the data and the next unused draw.
   */
  function Replay(s0: Data, obs: seq<Observation>, d: nat, m: Libm, draws: nat -> nat, drawn: nat): (Data, nat)
    decreases |obs|
  {
    if obs == [] then (s0, drawn)
    else
      var r := Replay(s0, obs[..|obs| - 1], d, m, draws, drawn);
      Step(obs[|obs| - 1], d, m, draws, r.1, r.0)
  }

  /** Replaying one more observation is one more `Step`. */
  lemma ReplaySnoc(s0: Data, obs: seq<Observation>, o: Observation, d: nat, m: Libm, draws: nat -> nat, drawn: nat)
    ensures var r := Replay(s0, obs, d, m, draws, drawn);
      Replay(s0, obs + [o], d, m, draws, drawn) == Step(o, d, m, draws, r.1, r.0)
  {
    assert (obs + [o])[..|obs|] == obs;
  }

  /** The data after the line `A#B` loaded on nothing. */
  function FirstSightData1(d: nat, m: Libm, draws: nat -> nat): Data
  {
    Data(map["A" := 0], [Vertex("A", InitialWeights(m, d, draws, 0))],
         map["B" := 0], [Vertex("B", InitialWeights(m, d, draws, d))],
         Store([], 0, 0, ViewClick(1, 1)), 1)
  }

  /**
   * Loading `A#B`, then `C#B`, from nothing: `A` is seen first and gets
   * index 0, `C` gets 1, `B` is interned once; the vertices draw `A`'s, then
   * `B`'s, then `C`'s weights.
   */
  lemma ReplayFirstSight(d: nat, m: Libm, draws: nat -> nat)
    ensures var r := Replay(Data(map[], [], map[], [], [], 0),
                            [Observation("A", "B", 1, 1), Observation("C", "B", 1, 1)], d, m, draws, 0);
      && r.0.adMap == map["A" := 0, "C" := 1] && r.0.psMap == map["B" := 0]
      && r.0.adVec == [Vertex("A", InitialWeights(m, d, draws, 0)), Vertex("C", InitialWeights(m, d, draws, 2 * d))]
      && r.0.psVec == [Vertex("B", InitialWeights(m, d, draws, d))]
      && r.0.graphSize == 2 && r.1 == 3 * d
  {
    var s0 := Data(map[], [], map[], [], [], 0);
    var o1, o2 := Observation("A", "B", 1, 1), Observation("C", "B", 1, 1);
    FirstSightPrefix(d, m, draws);
    ReplaySnoc(s0, [o1], o2, d, m, draws, 0);
    Pair(o1, o2);
    FirstSightLine2(d, m, draws);
  }

  /** The replay after the first line. */
  lemma FirstSightPrefix(d: nat, m: Libm, draws: nat -> nat)
    ensures Replay(Data(map[], [], map[], [], [], 0), [Observation("A", "B", 1, 1)], d, m, draws, 0)
         == (FirstSightData1(d, m, draws), 2 * d)
  {
    var s0 := Data(map[], [], map[], [], [], 0);
    var o1 := Observation("A", "B", 1, 1);
    ReplaySnoc(s0, [], o1, d, m, draws, 0);
    EmptyPrefix(o1);
    FirstSightLine1(d, m, draws);
  }

  lemma Pair<T>(a: T, b: T)
    ensures [a] + [b] == [a, b]
  {
  }

  lemma EmptyPrefix<T>(a: T)
    ensures [] + [a] == [a]
  {
  }

  /** The first line: both ids are new. */
  lemma FirstSightLine1(d: nat, m: Libm, draws: nat -> nat)
    ensures Step(Observation("A", "B", 1, 1), d, m, draws, 0, Data(map[], [], map[], [], [], 0))
         == (FirstSightData1(d, m, draws), 2 * d)
  {
    var r := Step(Observation("A", "B", 1, 1), d, m, draws, 0, Data(map[], [], map[], [], [], 0));
    assert r.0.adMap == map["A" := 0];
    assert r.0.psMap == map["B" := 0];
    assert r.0.adVec == [Vertex("A", InitialWeights(m, d, draws, 0))];
    assert r.0.psVec == [Vertex("B", InitialWeights(m, d, draws, d))];
    assert r.0.graph == Store([], 0, 0, ViewClick(1, 1));
  }

  /** The second line: only the source id is new. */
  lemma FirstSightLine2(d: nat, m: Libm, draws: nat -> nat)
    ensures var r := Step(Observation("C", "B", 1, 1), d, m, draws, 2 * d, FirstSightData1(d, m, draws));
      && r.0.adMap == map["A" := 0, "C" := 1] && r.0.psMap == map["B" := 0]
      && r.0.adVec == [Vertex("A", InitialWeights(m, d, draws, 0)), Vertex("C", InitialWeights(m, d, draws, 2 * d))]
      && r.0.psVec == [Vertex("B", InitialWeights(m, d, draws, d))]
      && r.0.graphSize == 2 && r.1 == 3 * d
  {
    assert "C" != "A";
  }

  /**
   * What a replay amounts to: from loaded data the graph invariant holds
   * afterwards, and the result is `s0` with `obs` recorded as `RecordedAll`
   * states (counted, ids added with the old indices kept, the vectors only
   * appended to, the pairs stored in order).
   */
  lemma {:induction false} ReplayLoaded(s0: Data, obs: seq<Observation>, d: nat, m: Libm, draws: nat -> nat,
                                        drawn: nat)
    requires Loaded(s0, d)
    ensures Loaded(Replay(s0, obs, d, m, draws, drawn).0, d)
    ensures RecordedAll(s0, obs, Replay(s0, obs, d, m, draws, drawn).0)
  {
    if obs == [] {
      RecordedNothing(s0);
    } else {
      var init := obs[..|obs| - 1];
      var o := obs[|obs| - 1];
      ReplayLoaded(s0, init, d, m, draws, drawn);
      var r := Replay(s0, init, d, m, draws, drawn);
      var r' := Step(o, d, m, draws, r.1, r.0);
      StepRecorded(o, d, m, draws, r.1, r.0);
      SplitLast(obs);
      RecordedAllLoaded(s0, init, o, d, m, draws, r.1, r.0, r'.0, r'.1);
    }
  }

  /** One more recorded observation keeps both halves of what `ReplayLoaded` states. */
  lemma RecordedAllLoaded(s0: Data, obs: seq<Observation>, o: Observation, d: nat, m: Libm, draws: nat -> nat,
                          drawn: nat, s1: Data, s: Data, drawnAfter: nat)
    requires Loaded(s1, d) && RecordedAll(s0, obs, s1)
    requires Recorded(o, d, m, draws, drawn, s1, s, drawnAfter)
    ensures Loaded(s, d) && RecordedAll(s0, obs + [o], s)
  {
    RecordedKeepsLoaded(o, d, m, draws, drawn, s1, s, drawnAfter);
    RecordedAllSnoc(s0, obs, o, d, m, draws, drawn, s1, s, drawnAfter);
  }

  /**
   * `SetMatrix`'s effect on the data: `s0` with the accepted lines of
   * `lines` replayed in order, the first new vertex drawing `rand()`'s first
   * result.
   */
  function LoadedData(s0: Data, lines: seq<string>, filter: bool, toInt: string -> int, d: nat, m: Libm,
                      draws: nat -> nat): Data
  {
    Replay(s0, AcceptedLines(lines, filter, toInt), d, m, draws, 0).0
  }

  /** The `SetMatrix` loop over all lines, from the data `s0`. */
  method LoadLines(lines: seq<string>, filter: bool, toInt: string -> int, d: nat, m: Libm, draws: nat -> nat,
                   s0: Data)
    returns (s: Data)
    requires Loaded(s0, d)
    ensures s == LoadedData(s0, lines, filter, toInt, d, m, draws)
    ensures Loaded(s, d)
    ensures RecordedAll(s0, AcceptedLines(lines, filter, toInt), s)
  {
    s := s0;
    var drawn: nat := 0;
    var i := 0;
    ghost var acc: seq<Observation> := [];
    while i < |lines|
      invariant 0 <= i <= |lines|
      invariant acc == AcceptedLines(lines[..i], filter, toInt)
      invariant (s, drawn) == Replay(s0, acc, d, m, draws, 0)
    {
      acc, s, drawn := LoadStep(lines, i, filter, toInt, d, m, draws, s0, acc, s, drawn);
      i := i + 1;
    }
    WholePrefix(lines);
    ReplayLoaded(s0, acc, d, m, draws, 0);
  }

  lemma WholePrefix<T>(s: seq<T>)
    ensures s[..|s|] == s
  {
  }

  lemma SplitLast<T>(s: seq<T>)
    requires s != []
    ensures s[..|s| - 1] + [s[|s| - 1]] == s
  {
  }

  /** The body of the `SetMatrix` loop for line `i`, with what it adds to the loop invariant. */
  method LoadStep(lines: seq<string>, i: nat, filter: bool, toInt: string -> int, d: nat, m: Libm,
                  draws: nat -> nat, ghost s0: Data, ghost acc: seq<Observation>, s1: Data, drawn: nat)
    returns (ghost acc': seq<Observation>, s: Data, drawnAfter: nat)
    requires i < |lines|
    requires acc == AcceptedLines(lines[..i], filter, toInt)
    requires (s1, drawn) == Replay(s0, acc, d, m, draws, 0)
    ensures acc' == AcceptedLines(lines[..i + 1], filter, toInt)
    ensures (s, drawnAfter) == Replay(s0, acc', d, m, draws, 0)
  {
    var accepted;
    accepted, s, drawnAfter := TakeLine(lines[i], filter, toInt, d, m, draws, drawn, s1);
    AcceptedLinesStep(lines, i, filter, toInt);
    acc' := acc;
    if accepted {
      var o := ParseLine(lines[i], filter, toInt).obs;
      ReplaySnoc(s0, acc, o, d, m, draws, 0);
      acc' := acc + [o];
    }
  }

  /** Grows the adjacency to row `a` and sets `graph_[a][p]`. */
  method StoreRow(g0: Graph, a: nat, p: int, vc: ViewClick) returns (g: Graph)
    ensures g == Store(g0, a, p, vc)
  {
    g := GrowRows(g0, a);
    g := g[a := g[a][p := vc]];
  }

  /** `while (graph_.size() <= ad_id) graph_.push_back(empty map)`. */
  method GrowRows(g0: Graph, adId: nat) returns (g: Graph)
    ensures g == Grown(g0, adId + 1)
  {
    g := g0;
    while |g| <= adId
      invariant |g0| <= |g| <= Max(|g0|, adId + 1)
      invariant forall i :: 0 <= i < |g| ==> g[i] == Row(g0, i)
      decreases adId + 1 - |g|
    {
      g := g + [map[]];
    }
  }

  /**
   * The lookup-or-create of one id on one side: an unseen id gets the
   * side's current size as index and a freshly drawn vertex; a known id is
   * left alone.
   */
  method Intern(idMap: map<string, nat>, vs: seq<Vertex>, id: string, d: nat,
                m: Libm, draws: nat -> nat, start: nat)
    returns (idMap': map<string, nat>, vs': seq<Vertex>, next: nat)
    ensures idMap' == if id in idMap then idMap else idMap[id := |vs|]
    ensures vs' == vs + if id in idMap then [] else [Vertex(id, InitialWeights(m, d, draws, start))]
    ensures next == if id in idMap then start else start + d
  {
    idMap', vs', next := idMap, vs, start;
    if id !in idMap {
      idMap' := idMap[id := |vs|];
      var v := NewVertex(id, d, m, draws, start);
      assert v.weights == InitialWeights(m, d, draws, start);
      vs' := vs + [v];
      next := start + d;
    }
  }

  /** Restarting the line count keeps the data loaded. */
  lemma LoadedRestart(s: Data, d: nat)
    requires Loaded(s, d)
    ensures Loaded(s.(graphSize := 0), d)
  {
  }

  /** Loaded data holds as many vertices as ids on each side. */
  lemma LoadedSizes(s: Data, d: nat)
    requires Loaded(s, d)
    ensures |s.adVec| == |s.adMap| && |s.psVec| == |s.psMap|
  {
  }

  /** Replacing the weights while keeping every vertex's id keeps the data loaded. */
  lemma ReweightLoaded(s: Data, d: nat, ad: seq<Vertex>, ps: seq<Vertex>)
    requires Loaded(s, d)
    requires SameIds(ad, s.adVec) && SameIds(ps, s.psVec)
    requires Uniform(ad, d) && Uniform(ps, d)
    ensures Loaded(s.(adVec := ad, psVec := ps), d)
  {
    InternedReweight(s.adMap, s.adVec, ad);
    InternedReweight(s.psMap, s.psVec, ps);
  }

  lemma InternedReweight(m: map<string, nat>, vs: seq<Vertex>, ws: seq<Vertex>)
    requires Interned(m, vs) && SameIds(ws, vs)
    ensures Interned(m, ws)
  {
    forall id | id in m
      ensures m[id] < |ws| && ws[m[id]].id == id
    {
      assert vs[m[id]].id == id;
    }
  }

  /** `Problem`: the graph, the model hyperparameters and the optimisation state. */
  class Problem {
    // for data
    var adVec: seq<Vertex>
    var psVec: seq<Vertex>
    var graph: Graph
    var graphSize: int
    // for model
    var latentDims: nat
    var regularAlpha: real
    var regularBeta: real
    // for optimization
    var optFlag: bool
    var loss: real
    // raw data
    var adMap: map<string, nat>
    var psMap: map<string, nat>

    /** The fields `SetMatrix` writes. */
    function Snapshot(): Data
      reads this`adVec, this`psVec, this`graph, this`graphSize, this`adMap, this`psMap
    {
      Data(adMap, adVec, psMap, psVec, graph, graphSize)
    }

    /** Every vertex carries `latentDims` weights. */
    predicate WeightsSized()
      reads this`adVec, this`psVec, this`latentDims
    {
      Uniform(adVec, latentDims) && Uniform(psVec, latentDims)
    }

    /** No adjacency row without a source vertex, no key without a target vertex. */
    predicate EdgesInRange()
      reads this`graph, this`adVec, this`psVec
    {
      && |graph| <= |adVec|
      && forall i, k :: 0 <= i < |graph| && k in graph[i] ==> 0 <= k < |psVec|
    }

    /** The graph invariant that `SetMatrix` maintains. */
    ghost predicate Valid()
      reads this`adVec, this`psVec, this`graph, this`graphSize, this`latentDims, this`adMap, this`psMap
    {
      Loaded(Snapshot(), latentDims)
    }

    /** `GetDims`: the number of entries of the flat parameter vector. */
    function GetDims(): (n: int)
      reads this`latentDims, this`adVec, this`psVec
      ensures n == |adVec| * latentDims + |psVec| * latentDims
    {
      Distribute(latentDims, |adVec|, |psVec|);
      latentDims * (|adVec| + |psVec|)
    }

    /** The flat parameter vector of the current weights. */
    function Packed(): (x: seq<real>)
      reads this`latentDims, this`adVec, this`psVec
      requires WeightsSized()
      ensures |x| == GetDims()
    {
      PackLength(adVec, psVec, latentDims);
      Pack(adVec, psVec)
    }

    /**
     * The constructor sets the hyperparameters; the vectors and maps start
     * empty. `graph_size_` and `loss_` are left indeterminate by the source
     * and start at 0 here.
     */
    constructor ()
      ensures Valid()
      ensures adVec == [] && psVec == [] && graph == [] && adMap == map[] && psMap == map[]
      ensures !optFlag && latentDims == 40 && regularAlpha == 0.5 && regularBeta == 0.5
      ensures graphSize == 0 && loss == 0.0
    {
      adVec, psVec, graph := [], [], [];
      adMap, psMap := map[], map[];
      graphSize, loss := 0, 0.0;
      optFlag := false;
      latentDims := 40;
      regularAlpha := 0.5;
      regularBeta := 0.5;
    }

    /**
     * `SetMatrix`: `graph_size_` restarts at 0, then the lines are loaded in
     * order on top of the current data, as `LoadedData` replays them; the
     * hyperparameters and the optimisation state are untouched. `draws`
     * stands for the successive results of `rand()`.
     */
    method SetMatrix(lines: seq<string>, filter: bool, toInt: string -> int, m: Libm, draws: nat -> nat)
      returns (ok: bool)
      requires Valid()
      modifies this`adVec, this`psVec, this`graph, this`graphSize, this`adMap, this`psMap
      ensures ok
      ensures Valid()
      ensures Snapshot() == LoadedData(old(Snapshot()).(graphSize := 0), lines, filter, toInt, latentDims, m, draws)
      ensures RecordedAll(old(Snapshot()).(graphSize := 0), AcceptedLines(lines, filter, toInt), Snapshot())
      ensures |adVec| == |adMap| && |psVec| == |psMap|
    {
      var s0 := Snapshot().(graphSize := 0);
      LoadedRestart(Snapshot(), latentDims);
      var s := LoadLines(lines, filter, toInt, latentDims, m, draws, s0);
      Commit(s);
      assert Snapshot() == s;
      LoadedSizes(s, latentDims);
      ok := true;
    }

    /** Writes the data `s` into the fields. */
    method Commit(s: Data)
      modifies this`adVec, this`psVec, this`graph, this`graphSize, this`adMap, this`psMap
      ensures Snapshot() == s
    {
      adMap, adVec, psMap, psVec, graph, graphSize := s.adMap, s.adVec, s.psMap, s.psVec, s.graph, s.graphSize;
    }
  }
}
