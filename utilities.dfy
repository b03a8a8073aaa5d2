/**
 * The neuron helpers of utilities.py: the smoothstep easing curve, and the
 * global list of neurons with hit testing, insertion and removal.
 */
module Utilities {
  import opened Lists
  import opened Neurons

  datatype Option<T> = None | Some(value: T)

  // ---------------------------------------------------------------------------
  // smoothstep
  // ---------------------------------------------------------------------------

  /** max(0, min(t, 1)). */
  function Clamp01(t: real): (r: real)
    ensures 0.0 <= r <= 1.0
    ensures 0.0 <= t <= 1.0 ==> r == t
    ensures t <= 0.0 ==> r == 0.0
    ensures t >= 1.0 ==> r == 1.0
  {
    var below := if t < 1.0 then t else 1.0;
    if 0.0 > below then 0.0 else below
  }

  /** The cubic 3t^2 - 2t^3 maps [0, 1] into [0, 1]. */
  lemma CubicBounds(t: real)
    requires 0.0 <= t <= 1.0
    ensures 0.0 <= t * t * (3.0 - 2.0 * t) <= 1.0
  {
    NonnegativeProduct(t, t);
    NonnegativeProduct(t * t, 3.0 - 2.0 * t);
    assert 1.0 - t * t * (3.0 - 2.0 * t) == (1.0 - t) * (1.0 - t) * (1.0 + 2.0 * t);
    NonnegativeProduct(1.0 - t, 1.0 - t);
    NonnegativeProduct((1.0 - t) * (1.0 - t), 1.0 + 2.0 * t);
  }

  /**
   * smoothstep: the position of `x` between the two edges, clamped to
   * [0, 1] and eased by 3t^2 - 2t^3. The edges must differ (the source
   * divides by their difference).
   */
  function Smoothstep(edge0: real, edge1: real, x: real): (r: real)
    requires edge0 != edge1
    ensures 0.0 <= r <= 1.0
    ensures edge0 < edge1 && x <= edge0 ==> r == 0.0
    ensures edge0 < edge1 && x >= edge1 ==> r == 1.0
  {
    var t := Clamp01((x - edge0) / (edge1 - edge0));
    CubicBounds(t);
    EdgeFraction(edge0, edge1, x);
    t * t * (3.0 - 2.0 * t)
  }

  /** Where `x` lies relative to increasing edges decides the side of [0, 1] its fraction falls on. */
  lemma EdgeFraction(edge0: real, edge1: real, x: real)
    requires edge0 != edge1
    ensures edge0 < edge1 && x <= edge0 ==> (x - edge0) / (edge1 - edge0) <= 0.0
    ensures edge0 < edge1 && x >= edge1 ==> (x - edge0) / (edge1 - edge0) >= 1.0
  {
    if edge0 < edge1 {
      var d := edge1 - edge0;
      var f := (x - edge0) / d;
      assert f * d == x - edge0;
      assert (f - 1.0) * d == x - edge1;
      SignOfFactor(f - 1.0, d);
    }
  }

  /** A product with a positive factor has the sign of the other factor. */
  lemma SignOfFactor(a: real, d: real)
    requires d > 0.0
    ensures a * d >= 0.0 ==> a >= 0.0
  {
  }

  /** Between increasing edges smoothstep never decreases. */
  lemma SmoothstepMonotone(edge0: real, edge1: real, x: real, y: real)
    requires edge0 < edge1 && x <= y
    ensures Smoothstep(edge0, edge1, x) <= Smoothstep(edge0, edge1, y)
  {
    var d := edge1 - edge0;
    var fx, fy := (x - edge0) / d, (y - edge0) / d;
    assert fy - fx == (y - x) / d;
    var a, b := Clamp01(fx), Clamp01(fy);
    assert a <= b;
    CubicMonotone(a, b);
  }

  /** 3t^2 - 2t^3 is non-decreasing on [0, 1]. */
  lemma CubicMonotone(a: real, b: real)
    requires 0.0 <= a <= b <= 1.0
    ensures a * a * (3.0 - 2.0 * a) <= b * b * (3.0 - 2.0 * b)
  {
    assert b * b * (3.0 - 2.0 * b) - a * a * (3.0 - 2.0 * a)
      == (b - a) * (a * (3.0 - 2.0 * a - b) + b * (3.0 - a - 2.0 * b));
    NonnegativeProduct(a, 3.0 - 2.0 * a - b);
    NonnegativeProduct(b, 3.0 - a - 2.0 * b);
    NonnegativeProduct(b - a, a * (3.0 - 2.0 * a - b) + b * (3.0 - a - 2.0 * b));
  }

  // ---------------------------------------------------------------------------
  // Bookkeeping when a neuron joins or leaves the set.
  // ---------------------------------------------------------------------------

  /** A neuron outside the graph with no links can join it. */
  lemma JoinIsolated(g: Graph, n: Neuron)
    requires Bookkept(g) && n !in g
    ensures Bookkept(g[n := Links([], [])])
  {
    var h := g[n := Links([], [])];
    forall a, b | a in h && b in h
      ensures multiset(h[b].sources)[a] == multiset(Targets(h[a].outgoing))[b]
    {
      if a == n && b != n {
        assert a !in g[b].sources;
      } else if b == n && a != n {
        assert b !in Targets(g[a].outgoing);
      }
    }
  }

  /** A neuron of the graph with no links can leave it. */
  lemma LeaveIsolated(g: Graph, n: Neuron)
    requires Bookkept(g) && n in g && g[n] == Links([], [])
    ensures Bookkept(g - {n})
  {
    var h := g - {n};
    forall a, b | a in h && b in Targets(h[a].outgoing)
      ensures b in h
    {
      assert multiset(g[n].sources)[a] == multiset(Targets(g[a].outgoing))[n];
    }
    forall a, b | a in h && b in h[a].sources
      ensures b in h
    {
      assert multiset(g[a].sources)[n] == multiset(Targets(g[n].outgoing))[a];
    }
  }

  /** A fresh neuron, which has no links, can join a consistent set. */
  lemma ConsistentJoin(ns: set<Neuron>, n: Neuron)
    requires Consistent(ns) && n !in ns
    requires n.connectionsTo == [] && n.connectionsFrom == []
    ensures Consistent(ns + {n})
  {
    var g := Snapshot(ns);
    JoinIsolated(g, n);
    ConsistentFrom(ns + {n}, g[n := Links([], [])]);
  }

  /** A neuron whose lists are empty can leave a consistent set. */
  lemma ConsistentLeave(ns: set<Neuron>, n: Neuron)
    requires Consistent(ns) && n in ns
    requires n.connectionsTo == [] && n.connectionsFrom == []
    ensures Consistent(ns - {n})
  {
    var g := Snapshot(ns);
    LeaveIsolated(g, n);
    ConsistentFrom(ns - {n}, g - {n});
  }

  /** A neuron with empty lists is linked with no neuron of a consistent set. */
  lemma IsolatedFromAll(ns: set<Neuron>, n: Neuron)
    requires Consistent(ns) && n in ns
    requires n.connectionsTo == [] && n.connectionsFrom == []
    ensures forall m :: m in ns ==> !m.HasConnectionTo(n) && n !in m.connectionsFrom
  {
    forall m | m in ns
      ensures !m.HasConnectionTo(n) && n !in m.connectionsFrom
    {
      Isolated(ns, n, m);
    }
  }

  /** Removing one occurrence of a listed neuron drops it from the set of listed neurons unless it was listed twice. */
  lemma ListedAfterRemove(s: seq<Neuron>, n: Neuron)
    requires n in s
    ensures n in RemoveFirst(s, n) ==> NeuronSet(RemoveFirst(s, n)) == NeuronSet(s)
    ensures n !in RemoveFirst(s, n) ==> NeuronSet(RemoveFirst(s, n)) == NeuronSet(s) - {n}
  {
    var r := RemoveFirst(s, n);
    forall m | m in s && m != n
      ensures m in r
    {
      assert multiset(r)[m] == multiset(s)[m];
    }
  }

  // ---------------------------------------------------------------------------
  // The global neuron list.
  // ---------------------------------------------------------------------------

  /**
   * The module-level state utilities.py works on: the list of neurons and
   * the current (eased) mouse offset used for parallax.
   */
  class Registry {
    var neurons: seq<Neuron>
    var mouseOffset: Vec2

    /** The connections among the listed neurons are kept in step. */
    ghost predicate Valid()
      reads this, NeuronSet(neurons)
    {
      Consistent(NeuronSet(neurons))
    }

    constructor ()
      ensures neurons == [] && mouseOffset == Vec2(0.0, 0.0)
      ensures Valid()
    {
      neurons := [];
      mouseOffset := Vec2(0.0, 0.0);
    }

    /**
     * get_neuron_at_pos: the first neuron, in list order, whose circle
     * contains `pos`; None exactly when there is none.
     */
    method NeuronAtPos(pos: Vec2) returns (r: Option<Neuron>)
      ensures r.None? <==> forall n :: n in neurons ==> !n.IsClicked(pos, mouseOffset)
      ensures r.Some? ==>
        exists i :: 0 <= i < |neurons| && neurons[i] == r.value &&
          r.value.IsClicked(pos, mouseOffset) &&
          (forall j :: 0 <= j < i ==> !neurons[j].IsClicked(pos, mouseOffset))
    {
      var i := 0;
      while i < |neurons|
        invariant 0 <= i <= |neurons|
        invariant forall j :: 0 <= j < i ==> !neurons[j].IsClicked(pos, mouseOffset)
      {
        if neurons[i].IsClicked(pos, mouseOffset) {
          return Some(neurons[i]);
        }
        i := i + 1;
      }
      return None;
    }

    /**
     * add_neuron: a new neuron, placed so that it appears under `pos` at
     * the current parallax, is appended; nothing else changes.
     */
    method AddNeuron(pos: Vec2, kind: NeuronKind)
      modifies this`neurons
      ensures |neurons| == |old(neurons)| + 1 && neurons[..|old(neurons)|] == old(neurons)
      ensures var n := neurons[|old(neurons)|];
        && fresh(n)
        && n.x == pos.x - Parallax(mouseOffset).x && n.y == pos.y - Parallax(mouseOffset).y
        && n.kind == kind
        && n.connectionsTo == [] && n.connectionsFrom == []
        && !n.stateActive && n.restingVoltage == 0.0 && n.externalStimulation == 0.0 && n.weight == InitialWeight
      ensures old(Valid()) ==> Valid()
    {
      ghost var ns := NeuronSet(neurons);
      var offset := Parallax(mouseOffset);
      var n := new Neuron(pos.x - offset.x, pos.y - offset.y, kind);
      neurons := neurons + [n];
      assert NeuronSet(neurons) == ns + {n};
      if Consistent(ns) {
        ConsistentJoin(ns, n);
      }
    }

    /**
     * remove_neuron: the neuron drops all its connections, in both
     * directions, and its first occurrence leaves the list. Afterwards no
     * listed neuron is linked with it. It must be listed (list.remove
     * raises otherwise).
     */
    method RemoveNeuron(n: Neuron)
      requires Valid() && n in neurons
      modifies this`neurons, NeuronSet(neurons)`connectionsTo, NeuronSet(neurons)`connectionsFrom
      ensures neurons == RemoveFirst(old(neurons), n)
      ensures n.connectionsTo == [] && n.connectionsFrom == []
      ensures forall m :: m in neurons ==> !m.HasConnectionTo(n) && n !in m.connectionsFrom
      ensures forall m :: m in neurons && m != n ==>
        m.connectionsTo == Without(old(m.connectionsTo), n) && m.connectionsFrom == RemoveAll(old(m.connectionsFrom), n)
      ensures Valid()
    {
      ghost var ns := NeuronSet(neurons);
      n.RemoveAllConnections(ns);
      IsolatedFromAll(ns, n);
      ListedAfterRemove(neurons, n);
      neurons := RemoveFirst(neurons, n);
      assert NeuronSet(neurons) <= ns;
      if n !in neurons {
        ConsistentLeave(ns, n);
      }
    }
  }
}
