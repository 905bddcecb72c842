/** KO co-occurrence network: every unordered pair of KOs is correlated across
    samples, and the pairs whose correlation is strong and significant enough
    become edges. The rank correlation itself is a parameter of the model. */
module Network {
  import opened Wrappers
  import opened Tables

  /** A correlation coefficient and its p-value; either may be NaN (None),
      as for a KO whose abundance is constant across samples. */
  datatype Correlation = Correlation(rho: Option<real>, pValue: Option<real>)

  /** One network edge, from the earlier KO of the table to the later one. */
  datatype Edge = Edge(source: string, target: string, rho: real, pValue: real)

  function Abs(x: real): real {
    if x < 0.0 then -x else x
  }

  /** `abs(r) >= r_threshold and p <= p_threshold`: every comparison with NaN
      is false, so a NaN coefficient or p-value never makes an edge. */
  predicate Passes(c: Correlation, rThreshold: real, pThreshold: real) {
    && c.rho.Some? && c.pValue.Some?
    && Abs(c.rho.value) >= rThreshold
    && c.pValue.value <= pThreshold
  }

  /** The correlation of the rows at positions `i` and `j`. */
  function PairCorrelation(t: Table<real>, corr: (seq<real>, seq<real>) -> Correlation, i: nat, j: nat): Correlation
    requires Rectangular(t) && i < |t.kos| && j < |t.kos|
  {
    corr(t.values[i], t.values[j])
  }

  /** The edge the pair at positions `(i, j)` contributes when it passes. */
  function EdgeOf(t: Table<real>, corr: (seq<real>, seq<real>) -> Correlation, i: nat, j: nat): Edge
    requires Rectangular(t) && i < |t.kos| && j < |t.kos|
    requires PairCorrelation(t, corr, i, j).rho.Some? && PairCorrelation(t, corr, i, j).pValue.Some?
  {
    var c := PairCorrelation(t, corr, i, j);
    Edge(t.kos[i], t.kos[j], c.rho.value, c.pValue.value)
  }

  /** The edges of the pair `(i, j)`: its edge if it passes, else none. */
  function PairEdge(t: Table<real>, corr: (seq<real>, seq<real>) -> Correlation,
                    rThreshold: real, pThreshold: real, i: nat, j: nat): seq<Edge>
    requires Rectangular(t) && i < |t.kos| && j < |t.kos|
  {
    if Passes(PairCorrelation(t, corr, i, j), rThreshold, pThreshold) then [EdgeOf(t, corr, i, j)] else []
  }

  /** The edges the inner loop of round `i` has found once it reaches `j`:
      those of the pairs `(i, k)`, `i < k < j`, in increasing `k`. */
  function RowEdges(t: Table<real>, corr: (seq<real>, seq<real>) -> Correlation,
                    rThreshold: real, pThreshold: real, i: nat, j: nat): seq<Edge>
    requires Rectangular(t) && i < j <= |t.kos|
    decreases j
  {
    if j == i + 1 then []
    else RowEdges(t, corr, rThreshold, pThreshold, i, j - 1) + PairEdge(t, corr, rThreshold, pThreshold, i, j - 1)
  }

  /** The edges found by the first `m` rounds of the outer loop. */
  function RoundEdges(t: Table<real>, corr: (seq<real>, seq<real>) -> Correlation,
                      rThreshold: real, pThreshold: real, m: nat): seq<Edge>
    requires Rectangular(t) && m <= |t.kos|
  {
    if m == 0 then []
    else RoundEdges(t, corr, rThreshold, pThreshold, m - 1) + RowEdges(t, corr, rThreshold, pThreshold, m - 1, |t.kos|)
  }

  /** The network of a table: the edges found by all rounds. */
  function Network(t: Table<real>, corr: (seq<real>, seq<real>) -> Correlation,
                   rThreshold: real, pThreshold: real): seq<Edge>
    requires Rectangular(t)
  {
    RoundEdges(t, corr, rThreshold, pThreshold, |t.kos|)
  }

  /** Every pair of KOs (by table position, earlier first) is correlated once
      and kept when it passes both thresholds; the result lists the kept
      edges round by round. */
  method SpearmanNetwork(t: Table<real>, corr: (seq<real>, seq<real>) -> Correlation,
                         rThreshold: real, pThreshold: real) returns (edges: seq<Edge>)
    requires WellFormed(t)
    ensures edges == Network(t, corr, rThreshold, pThreshold)
  {
    var n := |t.kos|;
    edges := [];
    var i := 0;
    while i < n
      invariant 0 <= i <= n
      invariant edges == RoundEdges(t, corr, rThreshold, pThreshold, i)
    {
      ghost var before := edges;
      var j := i + 1;
      assert edges == before + RowEdges(t, corr, rThreshold, pThreshold, i, j);
      while j < n
        invariant i + 1 <= j <= n
        invariant edges == before + RowEdges(t, corr, rThreshold, pThreshold, i, j)
      {
        var c := corr(t.values[i], t.values[j]);
        if Passes(c, rThreshold, pThreshold) {
          edges := edges + [Edge(t.kos[i], t.kos[j], c.rho.value, c.pValue.value)];
        }
        j := j + 1;
      }
      i := i + 1;
    }
  }

  /** `e` is the edge of a passing pair `(i, k)` with `i < k < j`. */
  ghost predicate FromRowPair(t: Table<real>, corr: (seq<real>, seq<real>) -> Correlation,
                              rThreshold: real, pThreshold: real, i: nat, j: nat, e: Edge)
    requires Rectangular(t) && i < j <= |t.kos|
  {
    exists k :: i < k < j && Passes(PairCorrelation(t, corr, i, k), rThreshold, pThreshold)
                && e == EdgeOf(t, corr, i, k)
  }

  /** `e` is the edge of a passing pair `(i, j)` with `i < m` and `i < j`. */
  ghost predicate FromPassingPair(t: Table<real>, corr: (seq<real>, seq<real>) -> Correlation,
                                  rThreshold: real, pThreshold: real, m: nat, e: Edge)
    requires Rectangular(t) && m <= |t.kos|
  {
    exists i, j :: 0 <= i < m && i < j < |t.kos| && Passes(PairCorrelation(t, corr, i, j), rThreshold, pThreshold)
                   && e == EdgeOf(t, corr, i, j)
  }

  /** Soundness of one round: its edges come from passing pairs of the round,
      at most one per pair. */
  lemma {:induction false} RowEdgesSound(t: Table<real>, corr: (seq<real>, seq<real>) -> Correlation,
                                         rThreshold: real, pThreshold: real, i: nat, j: nat)
    requires Rectangular(t) && i < j <= |t.kos|
    ensures |RowEdges(t, corr, rThreshold, pThreshold, i, j)| <= j - i - 1
    ensures forall e :: e in RowEdges(t, corr, rThreshold, pThreshold, i, j) ==>
              FromRowPair(t, corr, rThreshold, pThreshold, i, j, e)
    decreases j
  {
    if j > i + 1 {
      RowEdgesSound(t, corr, rThreshold, pThreshold, i, j - 1);
      forall e | e in RowEdges(t, corr, rThreshold, pThreshold, i, j)
        ensures FromRowPair(t, corr, rThreshold, pThreshold, i, j, e)
      {
        if e in RowEdges(t, corr, rThreshold, pThreshold, i, j - 1) {
          assert FromRowPair(t, corr, rThreshold, pThreshold, i, j - 1, e);
          var k :| i < k < j - 1 && Passes(PairCorrelation(t, corr, i, k), rThreshold, pThreshold)
                   && e == EdgeOf(t, corr, i, k);
        } else {
          assert e == EdgeOf(t, corr, i, j - 1);
        }
      }
    }
  }

  /** Completeness of one round: each passing pair of the round yields its
      edge. */
  lemma {:induction false} RowEdgesComplete(t: Table<real>, corr: (seq<real>, seq<real>) -> Correlation,
                                            rThreshold: real, pThreshold: real, i: nat, j: nat, k: nat)
    requires Rectangular(t) && i < k < j <= |t.kos|
    requires Passes(PairCorrelation(t, corr, i, k), rThreshold, pThreshold)
    ensures EdgeOf(t, corr, i, k) in RowEdges(t, corr, rThreshold, pThreshold, i, j)
    decreases j
  {
    if k < j - 1 {
      RowEdgesComplete(t, corr, rThreshold, pThreshold, i, j - 1, k);
    }
  }

  /** Soundness: every edge found by the first `m` rounds comes from a pair
      `(i, j)`, `i < m`, `i < j`, whose coefficient and p-value are defined and
      pass both thresholds; there are at most `m * (2n - m - 1) / 2` of them,
      one per pair visited. */
  lemma {:induction false} RoundEdgesSound(t: Table<real>, corr: (seq<real>, seq<real>) -> Correlation,
                                           rThreshold: real, pThreshold: real, m: nat)
    requires Rectangular(t) && m <= |t.kos|
    ensures 2 * |RoundEdges(t, corr, rThreshold, pThreshold, m)| <= m * (2 * |t.kos| - m - 1)
    ensures forall e :: e in RoundEdges(t, corr, rThreshold, pThreshold, m) ==>
              FromPassingPair(t, corr, rThreshold, pThreshold, m, e)
  {
    if m > 0 {
      var n := |t.kos|;
      RoundEdgesSound(t, corr, rThreshold, pThreshold, m - 1);
      RowEdgesSound(t, corr, rThreshold, pThreshold, m - 1, n);
      RoundArithmetic(m, n);
      forall e | e in RoundEdges(t, corr, rThreshold, pThreshold, m)
        ensures FromPassingPair(t, corr, rThreshold, pThreshold, m, e)
      {
        if e in RoundEdges(t, corr, rThreshold, pThreshold, m - 1) {
          assert FromPassingPair(t, corr, rThreshold, pThreshold, m - 1, e);
          var i, j :| 0 <= i < m - 1 && i < j < n && Passes(PairCorrelation(t, corr, i, j), rThreshold, pThreshold)
                      && e == EdgeOf(t, corr, i, j);
        } else {
          assert FromRowPair(t, corr, rThreshold, pThreshold, m - 1, n, e);
          var k :| m - 1 < k < n && Passes(PairCorrelation(t, corr, m - 1, k), rThreshold, pThreshold)
                   && e == EdgeOf(t, corr, m - 1, k);
        }
      }
    }
  }

  /** The round at position `m - 1` visits `n - m` pairs after the
      `(m - 1)(2n - m) / 2` of the `m - 1` rounds before it. */
  lemma RoundArithmetic(m: int, n: int)
    ensures (m - 1) * (2 * n - (m - 1) - 1) + 2 * (n - m) == m * (2 * n - m - 1)
  {
    assert (m - 1) * (2 * n - m) == m * (2 * n - m) - (2 * n - m);
  }

  /** Completeness: every passing pair visited by the first `m` rounds yields
      its edge. */
  lemma {:induction false} RoundEdgesComplete(t: Table<real>, corr: (seq<real>, seq<real>) -> Correlation,
                                              rThreshold: real, pThreshold: real, m: nat, i: nat, j: nat)
    requires Rectangular(t) && m <= |t.kos| && i < m && i < j < |t.kos|
    requires Passes(PairCorrelation(t, corr, i, j), rThreshold, pThreshold)
    ensures EdgeOf(t, corr, i, j) in RoundEdges(t, corr, rThreshold, pThreshold, m)
  {
    if i < m - 1 {
      RoundEdgesComplete(t, corr, rThreshold, pThreshold, m - 1, i, j);
    } else {
      RowEdgesComplete(t, corr, rThreshold, pThreshold, i, |t.kos|, j);
    }
  }

  /** The network has an edge from the KO at position `i` to the one at
      position `j > i` exactly when their correlation passes both thresholds. */
  lemma SpearmanEdgeIff(t: Table<real>, corr: (seq<real>, seq<real>) -> Correlation,
                        rThreshold: real, pThreshold: real, i: nat, j: nat)
    requires WellFormed(t) && i < j < |t.kos|
    ensures Passes(PairCorrelation(t, corr, i, j), rThreshold, pThreshold) <==>
              exists e :: e in Network(t, corr, rThreshold, pThreshold) && e.source == t.kos[i] && e.target == t.kos[j]
  {
    var n := |t.kos|;
    var edges := Network(t, corr, rThreshold, pThreshold);
    if Passes(PairCorrelation(t, corr, i, j), rThreshold, pThreshold) {
      RoundEdgesComplete(t, corr, rThreshold, pThreshold, n, i, j);
      assert EdgeOf(t, corr, i, j) in edges;
    }
    RoundEdgesSound(t, corr, rThreshold, pThreshold, n);
    forall e | e in edges && e.source == t.kos[i] && e.target == t.kos[j]
      ensures Passes(PairCorrelation(t, corr, i, j), rThreshold, pThreshold)
    {
      assert FromPassingPair(t, corr, rThreshold, pThreshold, n, e);
      var a, b :| 0 <= a < n && a < b < n && Passes(PairCorrelation(t, corr, a, b), rThreshold, pThreshold)
                  && e == EdgeOf(t, corr, a, b);
      assert t.kos[a] == t.kos[i] && t.kos[b] == t.kos[j];
    }
  }

  /** Each edge joins two different KOs of the table, and there are at most
      `n * (n - 1) / 2` edges among `n` KOs. */
  lemma SpearmanEdgesShape(t: Table<real>, corr: (seq<real>, seq<real>) -> Correlation,
                           rThreshold: real, pThreshold: real)
    requires WellFormed(t)
    ensures 2 * |Network(t, corr, rThreshold, pThreshold)| <= |t.kos| * (|t.kos| - 1)
    ensures forall e :: e in Network(t, corr, rThreshold, pThreshold) ==>
              e.source in t.kos && e.target in t.kos && e.source != e.target
  {
    var n := |t.kos|;
    RoundEdgesSound(t, corr, rThreshold, pThreshold, n);
    assert n * (2 * n - n - 1) == n * (n - 1);
    forall e | e in Network(t, corr, rThreshold, pThreshold)
      ensures e.source in t.kos && e.target in t.kos && e.source != e.target
    {
      assert FromPassingPair(t, corr, rThreshold, pThreshold, n, e);
      var i, j :| 0 <= i < n && i < j < n && Passes(PairCorrelation(t, corr, i, j), rThreshold, pThreshold)
                  && e == EdgeOf(t, corr, i, j);
    }
  }

  /** Lexicographic order on pairs of positions. */
  predicate PairBefore(p: (nat, nat), q: (nat, nat)) {
    p.0 < q.0 || (p.0 == q.0 && p.1 < q.1)
  }

  /** The positions of the passing pairs of round `i` up to `j`, in the order
      the inner loop visits them. */
  ghost function RowPassing(t: Table<real>, corr: (seq<real>, seq<real>) -> Correlation,
                            rThreshold: real, pThreshold: real, i: nat, j: nat): seq<(nat, nat)>
    requires Rectangular(t) && i < j <= |t.kos|
    decreases j
  {
    if j == i + 1 then []
    else
      RowPassing(t, corr, rThreshold, pThreshold, i, j - 1)
        + if Passes(PairCorrelation(t, corr, i, j - 1), rThreshold, pThreshold) then [(i, j - 1)] else []
  }

  /** The positions of the passing pairs of the first `m` rounds. */
  ghost function RoundPassing(t: Table<real>, corr: (seq<real>, seq<real>) -> Correlation,
                              rThreshold: real, pThreshold: real, m: nat): seq<(nat, nat)>
    requires Rectangular(t) && m <= |t.kos|
  {
    if m == 0 then []
    else RoundPassing(t, corr, rThreshold, pThreshold, m - 1) + RowPassing(t, corr, rThreshold, pThreshold, m - 1, |t.kos|)
  }

  /** `edges` are the edges of the pairs `ps`, one for one: each pair joins an
      earlier position to a later one and passes, and the pairs come in
      strictly increasing lexicographic order. */
  ghost predicate EdgesOfPairs(t: Table<real>, corr: (seq<real>, seq<real>) -> Correlation,
                               rThreshold: real, pThreshold: real, edges: seq<Edge>, ps: seq<(nat, nat)>)
    requires Rectangular(t)
  {
    && |edges| == |ps|
    && (forall a :: 0 <= a < |ps| ==>
          && ps[a].0 < ps[a].1 < |t.kos|
          && Passes(PairCorrelation(t, corr, ps[a].0, ps[a].1), rThreshold, pThreshold)
          && edges[a] == EdgeOf(t, corr, ps[a].0, ps[a].1))
    && (forall a, b :: 0 <= a < b < |ps| ==> PairBefore(ps[a], ps[b]))
  }

  /** Every pair in `ps` starts at position `i` and ends before position `j`. */
  predicate InRow(ps: seq<(nat, nat)>, i: nat, j: nat) {
    forall a :: 0 <= a < |ps| ==> ps[a].0 == i && ps[a].1 < j
  }

  /** Every pair in `ps` starts before position `m`. */
  predicate BeforeRow(ps: seq<(nat, nat)>, m: nat) {
    forall a :: 0 <= a < |ps| ==> ps[a].0 < m
  }

  /** Rounds before `i` followed by a piece of round `i`: every pair of the
      first part comes before every pair of the second, and all start before
      `i + 1`. */
  lemma RoundThenRow(ps1: seq<(nat, nat)>, ps2: seq<(nat, nat)>, i: nat, j: nat)
    requires BeforeRow(ps1, i) && InRow(ps2, i, j)
    ensures forall a, b :: 0 <= a < |ps1| && 0 <= b < |ps2| ==> PairBefore(ps1[a], ps2[b])
    ensures BeforeRow(ps1 + ps2, i + 1)
  {
    var ps := ps1 + ps2;
    forall a | 0 <= a < |ps| ensures ps[a].0 < i + 1 {
      if a < |ps1| {
        assert ps[a] == ps1[a];
      } else {
        assert ps[a] == ps2[a - |ps1|];
      }
    }
  }

  /** Appending the pair `(i, j)` to pairs of round `i` ending before `j`
      keeps them in order and in round `i`. */
  lemma RowSnoc(ps: seq<(nat, nat)>, i: nat, j: nat)
    requires InRow(ps, i, j)
    ensures forall a, b :: 0 <= a < |ps| && 0 <= b < 1 ==> PairBefore(ps[a], [(i, j)][b])
    ensures InRow(ps + [(i, j)], i, j + 1)
  {
    var ps' := ps + [(i, j)];
    forall a | 0 <= a < |ps'| ensures ps'[a].0 == i && ps'[a].1 < j + 1 {
      if a < |ps| {
        assert ps'[a] == ps[a];
      }
    }
  }

  /** Concatenating two such lists, the pairs of the first all before those
      of the second, gives such a list. */
  lemma AppendEdgesOfPairs(t: Table<real>, corr: (seq<real>, seq<real>) -> Correlation,
                           rThreshold: real, pThreshold: real,
                           edges1: seq<Edge>, ps1: seq<(nat, nat)>, edges2: seq<Edge>, ps2: seq<(nat, nat)>)
    requires Rectangular(t)
    requires EdgesOfPairs(t, corr, rThreshold, pThreshold, edges1, ps1)
    requires EdgesOfPairs(t, corr, rThreshold, pThreshold, edges2, ps2)
    requires forall a, b :: 0 <= a < |ps1| && 0 <= b < |ps2| ==> PairBefore(ps1[a], ps2[b])
    ensures EdgesOfPairs(t, corr, rThreshold, pThreshold, edges1 + edges2, ps1 + ps2)
  {
    var edges, ps := edges1 + edges2, ps1 + ps2;
    forall a | 0 <= a < |ps|
      ensures && ps[a].0 < ps[a].1 < |t.kos|
              && Passes(PairCorrelation(t, corr, ps[a].0, ps[a].1), rThreshold, pThreshold)
              && edges[a] == EdgeOf(t, corr, ps[a].0, ps[a].1)
    {
      if a < |ps1| {
        assert ps[a] == ps1[a] && edges[a] == edges1[a];
      } else {
        assert ps[a] == ps2[a - |ps1|] && edges[a] == edges2[a - |ps1|];
      }
    }
    forall a, b | 0 <= a < b < |ps| ensures PairBefore(ps[a], ps[b]) {
      if b < |ps1| {
        assert ps[a] == ps1[a] && ps[b] == ps1[b];
      } else if a < |ps1| {
        assert ps[a] == ps1[a] && ps[b] == ps2[b - |ps1|];
      } else {
        assert ps[a] == ps2[a - |ps1|] && ps[b] == ps2[b - |ps1|];
      }
    }
  }

  /** Appending the edge of a passing pair `(i, j)` to edges of earlier
      pairs of round `i`. */
  lemma PassingPairSnoc(t: Table<real>, corr: (seq<real>, seq<real>) -> Correlation,
                        rThreshold: real, pThreshold: real, edges: seq<Edge>, ps: seq<(nat, nat)>, i: nat, j: nat)
    requires Rectangular(t) && i < j < |t.kos|
    requires Passes(PairCorrelation(t, corr, i, j), rThreshold, pThreshold)
    requires EdgesOfPairs(t, corr, rThreshold, pThreshold, edges, ps) && InRow(ps, i, j)
    ensures EdgesOfPairs(t, corr, rThreshold, pThreshold, edges + [EdgeOf(t, corr, i, j)], ps + [(i, j)])
    ensures InRow(ps + [(i, j)], i, j + 1)
  {
    assert EdgesOfPairs(t, corr, rThreshold, pThreshold, [EdgeOf(t, corr, i, j)], [(i, j)]);
    RowSnoc(ps, i, j);
    AppendEdgesOfPairs(t, corr, rThreshold, pThreshold, edges, ps, [EdgeOf(t, corr, i, j)], [(i, j)]);
  }

  /** Round `i` lists the edges of its passing pairs `(i, k)`, `k < j`, by
      increasing `k`. */
  lemma {:induction false} RowEdgesOrdered(t: Table<real>, corr: (seq<real>, seq<real>) -> Correlation,
                                           rThreshold: real, pThreshold: real, i: nat, j: nat)
    requires Rectangular(t) && i < j <= |t.kos|
    ensures EdgesOfPairs(t, corr, rThreshold, pThreshold, RowEdges(t, corr, rThreshold, pThreshold, i, j),
                         RowPassing(t, corr, rThreshold, pThreshold, i, j))
    ensures InRow(RowPassing(t, corr, rThreshold, pThreshold, i, j), i, j)
    decreases j
  {
    if j > i + 1 {
      RowEdgesOrdered(t, corr, rThreshold, pThreshold, i, j - 1);
      var edges := RowEdges(t, corr, rThreshold, pThreshold, i, j - 1);
      var ps := RowPassing(t, corr, rThreshold, pThreshold, i, j - 1);
      if Passes(PairCorrelation(t, corr, i, j - 1), rThreshold, pThreshold) {
        assert RowEdges(t, corr, rThreshold, pThreshold, i, j) == edges + [EdgeOf(t, corr, i, j - 1)];
        assert RowPassing(t, corr, rThreshold, pThreshold, i, j) == ps + [(i, j - 1)];
        PassingPairSnoc(t, corr, rThreshold, pThreshold, edges, ps, i, j - 1);
      } else {
        assert RowEdges(t, corr, rThreshold, pThreshold, i, j) == edges;
        assert RowPassing(t, corr, rThreshold, pThreshold, i, j) == ps;
      }
    }
  }

  /** The first `m` rounds list the edges of their passing pairs in
      lexicographic order. */
  lemma {:induction false} RoundEdgesOrdered(t: Table<real>, corr: (seq<real>, seq<real>) -> Correlation,
                                             rThreshold: real, pThreshold: real, m: nat)
    requires Rectangular(t) && m <= |t.kos|
    ensures EdgesOfPairs(t, corr, rThreshold, pThreshold, RoundEdges(t, corr, rThreshold, pThreshold, m),
                         RoundPassing(t, corr, rThreshold, pThreshold, m))
    ensures BeforeRow(RoundPassing(t, corr, rThreshold, pThreshold, m), m)
  {
    if m > 0 {
      var n := |t.kos|;
      RoundEdgesOrdered(t, corr, rThreshold, pThreshold, m - 1);
      RowEdgesOrdered(t, corr, rThreshold, pThreshold, m - 1, n);
      var ps1 := RoundPassing(t, corr, rThreshold, pThreshold, m - 1);
      var ps2 := RowPassing(t, corr, rThreshold, pThreshold, m - 1, n);
      RoundThenRow(ps1, ps2, m - 1, n);
      AppendEdgesOfPairs(t, corr, rThreshold, pThreshold,
                         RoundEdges(t, corr, rThreshold, pThreshold, m - 1), ps1,
                         RowEdges(t, corr, rThreshold, pThreshold, m - 1, n), ps2);
    }
  }

  /** The positions of the pairs the network keeps, in visiting order. */
  ghost function PassingPairs(t: Table<real>, corr: (seq<real>, seq<real>) -> Correlation,
                              rThreshold: real, pThreshold: real): seq<(nat, nat)>
    requires Rectangular(t)
  {
    RoundPassing(t, corr, rThreshold, pThreshold, |t.kos|)
  }

  /** The network lists the edges of its passing pairs in strictly increasing
      lexicographic order of their positions, so no pair of KOs is joined
      twice; and when no pair passes, the network is empty rather than an
      error. */
  lemma SpearmanEdgesOrdered(t: Table<real>, corr: (seq<real>, seq<real>) -> Correlation,
                             rThreshold: real, pThreshold: real)
    requires WellFormed(t)
    ensures EdgesOfPairs(t, corr, rThreshold, pThreshold, Network(t, corr, rThreshold, pThreshold),
                         PassingPairs(t, corr, rThreshold, pThreshold))
    ensures forall a, b :: 0 <= a < b < |Network(t, corr, rThreshold, pThreshold)| ==>
              var edges := Network(t, corr, rThreshold, pThreshold);
              (edges[a].source, edges[a].target) != (edges[b].source, edges[b].target)
    ensures (forall i, j :: 0 <= i < j < |t.kos| ==> !Passes(PairCorrelation(t, corr, i, j), rThreshold, pThreshold)) ==>
              Network(t, corr, rThreshold, pThreshold) == []
  {
    var n := |t.kos|;
    RoundEdgesOrdered(t, corr, rThreshold, pThreshold, n);
    var edges := Network(t, corr, rThreshold, pThreshold);
    var ps := PassingPairs(t, corr, rThreshold, pThreshold);
    forall a, b | 0 <= a < b < |edges|
      ensures (edges[a].source, edges[a].target) != (edges[b].source, edges[b].target)
    {
      assert PairBefore(ps[a], ps[b]);
      if ps[a].0 != ps[b].0 {
        assert t.kos[ps[a].0] != t.kos[ps[b].0];
      } else {
        assert t.kos[ps[a].1] != t.kos[ps[b].1];
      }
    }
    if edges != [] {
      assert ps[0].0 < ps[0].1 < n;
    }
  }
}
