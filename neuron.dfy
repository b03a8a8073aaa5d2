/**
 * The spiking-neuron graph of neuron.py: directed connections owned by their
 * source neuron, back-references kept by the target, and the two-state
 * (resting / active) machine each neuron runs once per tick.
 */
module Neurons {
  import opened Settings
  import opened Lists

  /** A screen position or offset (pygame's Vector2, reduced to its two coordinates). */
  datatype Vec2 = Vec2(x: real, y: real)

  /** The type tag utilities.py's add_neuron passes along with the position. */
  datatype NeuronKind = Regular | PositionInput | VelocityInput | Output

  /** Parallax shift of objects at the focus depth for a given mouse offset. */
  function Parallax(offset: Vec2): Vec2 {
    var k := (1.0 - FocusDepth / MaxDepth) * ParallaxScale;
    Vec2(offset.x * k, offset.y * k)
  }

  /** Weight a neuron starts with, and the floor above which resting ticks decay it. */
  const InitialWeight: real := 0.25
  const WeightFloor: real := 0.1

  // ---------------------------------------------------------------------------
  // Signals: the animation state of one connection, as a value.
  // ---------------------------------------------------------------------------

  /** `animating` is a connection's is_animating flag, `progress` its animation_progress. */
  datatype Signal = Signal(animating: bool, progress: real)

  /** One active tick of one connection: an animating signal moves by `step` and stops once it reaches the last segment. */
  function Advance(s: Signal, step: real): (r: Signal)
    ensures !s.animating ==> r == s
    ensures s.animating ==> r.progress == s.progress + step
    ensures r.animating ==> s.animating
    ensures Completes(s, step) <==> s.animating && !r.animating
  {
    if !s.animating then s
    else Signal(s.progress + step < ConnectionSegments, s.progress + step)
  }

  /** The signal arrives at its target during this tick. */
  predicate Completes(s: Signal, step: real) {
    s.animating && s.progress + step >= ConnectionSegments
  }

  /** One active tick of every outgoing connection. */
  function Propagate(ss: seq<Signal>, step: real): (r: seq<Signal>)
    ensures |r| == |ss|
    ensures forall k :: 0 <= k < |ss| ==> r[k] == Advance(ss[k], step)
  {
    seq(|ss|, k requires 0 <= k < |ss| => Advance(ss[k], step))
  }

  /** Number of signals that arrive during this tick. */
  function Completions(ss: seq<Signal>, step: real): nat {
    if ss == [] then 0
    else Completions(ss[..|ss| - 1], step) + (if Completes(ss[|ss| - 1], step) then 1 else 0)
  }

  /**
   * Weight gained during an active tick: each arrival adds the training
   * factor once (ReinforcementCounts shows this is `trainingFactor` times
   * the number of arrivals).
   */
  function Reinforcement(ss: seq<Signal>, trainingFactor: real, step: real): real {
    if ss == [] then 0.0
    else Reinforcement(ss[..|ss| - 1], trainingFactor, step) + (if Completes(ss[|ss| - 1], step) then trainingFactor else 0.0)
  }

  /** Accumulating arrivals one signal further. */
  lemma ReinforcementSnoc(ss: seq<Signal>, i: nat, trainingFactor: real, step: real)
    requires i < |ss|
    ensures Reinforcement(ss[..i + 1], trainingFactor, step) ==
      Reinforcement(ss[..i], trainingFactor, step) + (if Completes(ss[i], step) then trainingFactor else 0.0)
  {
    assert ss[..i + 1][..i] == ss[..i];
  }

  /** The weight gained is the training factor times the number of arrivals. */
  lemma {:induction false} ReinforcementCounts(ss: seq<Signal>, trainingFactor: real, step: real)
    ensures Reinforcement(ss, trainingFactor, step) == trainingFactor * Completions(ss, step) as real
  {
    if ss != [] {
      ReinforcementCounts(ss[..|ss| - 1], trainingFactor, step);
    }
  }

  /** Some connection is still animating. */
  predicate AnyAnimating(ss: seq<Signal>) {
    exists k :: 0 <= k < |ss| && ss[k].animating
  }

  /** The signals of `n` connections right after the neuron fired. */
  function Launched(n: nat): (r: seq<Signal>)
    ensures |r| == n && forall k :: 0 <= k < n ==> r[k] == Signal(true, 0.0)
  {
    seq(n, _ => Signal(true, 0.0))
  }

  /**
   * Stimulation delivered to the target of connection `k` during an active
   * tick that starts with signals `ss` and weight `w`: nothing unless its
   * signal arrives, otherwise 25 times the weight after this arrival's
   * reinforcement (every earlier arrival in list order has reinforced it too).
   */
  function Delivery(ss: seq<Signal>, w: real, trainingFactor: real, step: real, k: nat): real
    requires k < |ss|
  {
    if Completes(ss[k], step) then 25.0 * (w + Reinforcement(ss[..k + 1], trainingFactor, step))
    else 0.0
  }

  /** A signal after `n` active ticks of length `step`. */
  function AdvanceTimes(s: Signal, step: real, n: nat): Signal {
    if n == 0 then s else Advance(AdvanceTimes(s, step, n - 1), step)
  }

  /** The signals after `n` active ticks of length `step`. */
  function PropagateTimes(ss: seq<Signal>, step: real, n: nat): seq<Signal> {
    if n == 0 then ss else Propagate(PropagateTimes(ss, step, n - 1), step)
  }

  /** `n` ticks of the whole list advance every signal `n` times on its own. */
  lemma {:induction false} PropagateTimesPointwise(ss: seq<Signal>, step: real, n: nat)
    ensures |PropagateTimes(ss, step, n)| == |ss|
    ensures forall j :: 0 <= j < |ss| ==> PropagateTimes(ss, step, n)[j] == AdvanceTimes(ss[j], step, n)
  {
    if n > 0 {
      PropagateTimesPointwise(ss, step, n - 1);
    }
  }

  /**
   * After firing into k > 0 connections, the neuron stays active for
   * exactly the ticks whose total step is below the segment count.
   */
  lemma LaunchedStaysActive(k: nat, step: real, n: nat)
    requires k > 0 && step > 0.0
    ensures AnyAnimating(PropagateTimes(Launched(k), step, n)) <==> (n as real) * step < ConnectionSegments
  {
    var ss := PropagateTimes(Launched(k), step, n);
    PropagateTimesPointwise(Launched(k), step, n);
    LaunchedSignalTiming(step, n);
    assert ss[0] == AdvanceTimes(Signal(true, 0.0), step, n);
    if AnyAnimating(ss) {
      var j :| 0 <= j < |ss| && ss[j].animating;
      assert ss[j] == AdvanceTimes(Signal(true, 0.0), step, n);
    }
  }

  /**
   * Timing of a launched signal: with a positive step it is still animating
   * after `n` ticks exactly while `n * step` stays below the segment count,
   * and while animating its progress is `n * step`.
   */
  lemma {:induction false} LaunchedSignalTiming(step: real, n: nat)
    requires step > 0.0
    ensures AdvanceTimes(Signal(true, 0.0), step, n).animating <==> (n as real) * step < ConnectionSegments
    ensures AdvanceTimes(Signal(true, 0.0), step, n).animating ==> AdvanceTimes(Signal(true, 0.0), step, n).progress == (n as real) * step
  {
    if n > 0 {
      LaunchedSignalTiming(step, n - 1);
      var prev := AdvanceTimes(Signal(true, 0.0), step, n - 1);
      OneMoreMultiple(n, step);
      if !prev.animating {
        assert ((n - 1) as real) * step >= ConnectionSegments;
      }
    }
  }

  /** A launched signal completes on exactly one tick: the first whose total step reaches the segment count. */
  lemma LaunchedSignalArrives(step: real, n: nat)
    requires step > 0.0
    ensures Completes(AdvanceTimes(Signal(true, 0.0), step, n), step) <==>
      (n as real) * step < ConnectionSegments <= ((n + 1) as real) * step
  {
    LaunchedSignalTiming(step, n);
    OneMoreMultiple(n + 1, step);
  }

  // ---------------------------------------------------------------------------
  // Resting-branch arithmetic.
  // ---------------------------------------------------------------------------

  /**
   * Voltage after one resting tick, before the threshold test: pending
   * stimulation (only if positive) moves the voltage toward VMax, then the
   * RC decay factor `decay` (standing for exp(-dt / tau)) scales it.
   */
  function Integrate(v: real, stimulation: real, dt: real, decay: real): real {
    var charged := if stimulation > 0.0 then Charge(v, ChargeFraction(stimulation, dt)) else v;
    charged * decay
  }

  /** The fraction `stimulation * dt / tau` of the way to VMax that one tick charges, with tau = R1 * C1. */
  function ChargeFraction(stimulation: real, dt: real): real {
    stimulation * dt / (R1 * C1)
  }

  /** The voltage moved a fraction `x` of the way from `v` toward VMax. */
  function Charge(v: real, x: real): real {
    v + (VMax - v) * x
  }

  /** Weight after one resting tick: it drops by trainingFactor/100 while above the floor. */
  function DecayWeight(w: real, trainingFactor: real): (r: real)
    ensures trainingFactor >= 0.0 ==> r <= w
    ensures w <= WeightFloor ==> r == w
    ensures w > WeightFloor ==> r > WeightFloor - trainingFactor / 100.0
  {
    if w > WeightFloor then w - trainingFactor / 100.0 else w
  }

  /** The product of two non-negative reals is non-negative. */
  lemma NonnegativeProduct(a: real, b: real)
    requires a >= 0.0 && b >= 0.0
    ensures a * b >= 0.0
  {
  }

  /** Weight after `n` resting ticks. */
  function DecayWeightTimes(w: real, trainingFactor: real, n: nat): real {
    if n == 0 then w else DecayWeight(DecayWeightTimes(w, trainingFactor, n - 1), trainingFactor)
  }

  /**
   * Resting ticks never raise the weight, and a weight that starts at or
   * above WeightFloor - trainingFactor/100 never drops below that bound.
   */
  lemma {:induction false} DecayWeightFloor(w: real, trainingFactor: real, n: nat)
    requires trainingFactor >= 0.0
    ensures DecayWeightTimes(w, trainingFactor, n) <= w
    ensures w >= WeightFloor - trainingFactor / 100.0 ==> DecayWeightTimes(w, trainingFactor, n) >= WeightFloor - trainingFactor / 100.0
  {
    if n > 0 {
      DecayWeightFloor(w, trainingFactor, n - 1);
    }
  }

  /** With a positive training factor, a weight above the floor drops by exactly trainingFactor/100 per resting tick. */
  lemma {:induction false} DecayWeightSteps(w: real, trainingFactor: real, n: nat)
    requires trainingFactor > 0.0
    requires w - (n as real) * (trainingFactor / 100.0) > WeightFloor - trainingFactor / 100.0
    ensures DecayWeightTimes(w, trainingFactor, n) == w - (n as real) * (trainingFactor / 100.0)
  {
    if n > 0 {
      OneMoreMultiple(n, trainingFactor / 100.0);
      FewerMultiple(n, trainingFactor / 100.0);
      DecayWeightSteps(w, trainingFactor, n - 1);
    }
  }

  /** n copies of d are n - 1 copies and one more. */
  lemma OneMoreMultiple(n: nat, d: real)
    requires n > 0
    ensures (n as real) * d == ((n - 1) as real) * d + d
  {
  }

  /** One fewer copy of a positive d is less. */
  lemma FewerMultiple(n: nat, d: real)
    requires n > 0 && d > 0.0
    ensures ((n - 1) as real) * d < (n as real) * d
  {
    OneMoreMultiple(n, d);
  }

  /**
   * One resting tick keeps the voltage within [0, VMax] when the charge
   * fraction `stimulation * dt / tau` is at most one and the decay factor
   * lies in (0, 1]; without positive stimulation it only decays.
   */
  lemma IntegrateBounds(v: real, stimulation: real, dt: real, decay: real)
    requires 0.0 <= v <= VMax && dt >= 0.0 && 0.0 < decay <= 1.0
    requires ChargeFraction(stimulation, dt) <= 1.0
    ensures 0.0 <= Integrate(v, stimulation, dt, decay) <= VMax
    ensures stimulation <= 0.0 ==> Integrate(v, stimulation, dt, decay) == v * decay
  {
    if stimulation > 0.0 {
      NonnegativeProduct(stimulation, dt);
      ChargeBounds(v, ChargeFraction(stimulation, dt));
      ScaleBounds(Charge(v, ChargeFraction(stimulation, dt)), decay);
    } else {
      ScaleBounds(v, decay);
    }
  }

  /** Scaling a voltage in [0, VMax] by a factor in (0, 1] keeps it there. */
  lemma ScaleBounds(c: real, decay: real)
    requires 0.0 <= c <= VMax && 0.0 < decay <= 1.0
    ensures 0.0 <= c * decay <= VMax
  {
    NonnegativeProduct(c, decay);
    NonnegativeProduct(c, 1.0 - decay);
  }

  /** Moving a fraction `x` of the way from `v` toward VMax stays between `v` and VMax. */
  lemma ChargeBounds(v: real, x: real)
    requires 0.0 <= v <= VMax && 0.0 <= x <= 1.0
    ensures v <= Charge(v, x) <= VMax
  {
    NonnegativeProduct(VMax - v, x);
    NonnegativeProduct(VMax - v, 1.0 - x);
  }

  // ---------------------------------------------------------------------------
  // Sequences of connections and of neurons.
  // ---------------------------------------------------------------------------

  /** The target of each connection, in list order. */
  function Targets(cs: seq<Connection>): (ts: seq<Neuron>) {
    seq(|cs|, k requires 0 <= k < |cs| => cs[k].connectedTo)
  }

  function ConnSet(cs: seq<Connection>): set<Connection> {
    set c | c in cs
  }

  function TargetSet(cs: seq<Connection>): set<Neuron> {
    set c | c in cs :: c.connectedTo
  }

  function NeuronSet(ns: seq<Neuron>): set<Neuron> {
    set n | n in ns
  }

  /** The animation state of one connection. */
  function SignalOf(c: Connection): Signal
    reads c
  {
    Signal(c.isAnimating, c.animationProgress)
  }

  /** The animation state of each connection, in list order. */
  function Signals(cs: seq<Connection>): seq<Signal>
    reads ConnSet(cs)
  {
    seq(|cs|, k requires 0 <= k < |cs| reads ConnSet(cs) => SignalOf(cs[k]))
  }

  /** The pending stimulation of the target of each connection, in list order. */
  function Stimuli(cs: seq<Connection>): seq<real>
    reads TargetSet(cs)
  {
    seq(|cs|, k requires 0 <= k < |cs| reads TargetSet(cs) => cs[k].connectedTo.externalStimulation)
  }

  /** Stimulation `e0` plus what the first `i` connections deliver during an active tick. */
  function Delivered(e0: seq<real>, ss: seq<Signal>, w: real, trainingFactor: real, step: real, i: nat): (r: seq<real>)
    requires |e0| == |ss| && i <= |ss|
    ensures |r| == |e0|
    ensures forall k :: 0 <= k < |e0| ==> r[k] == e0[k] + if k < i then Delivery(ss, w, trainingFactor, step, k) else 0.0
  {
    seq(|e0|, k requires 0 <= k < |e0| => e0[k] + if k < i then Delivery(ss, w, trainingFactor, step, k) else 0.0)
  }

  /** Signals are the sequence that matches them connection by connection. */
  lemma SignalsAre(cs: seq<Connection>, ss: seq<Signal>)
    requires |ss| == |cs| && forall k :: 0 <= k < |cs| ==> SignalOf(cs[k]) == ss[k]
    ensures Signals(cs) == ss
  {
  }

  /** Stimuli are the sequence that matches them target by target. */
  lemma StimuliAre(cs: seq<Connection>, es: seq<real>)
    requires |es| == |cs| && forall k :: 0 <= k < |cs| ==> cs[k].connectedTo.externalStimulation == es[k]
    ensures Stimuli(cs) == es
  {
  }

  /** The list comprehension of remove_connection: every connection whose target is not `b`, in order. */
  function Without(cs: seq<Connection>, b: Neuron): (r: seq<Connection>)
    ensures Targets(r) == RemoveAll(Targets(cs), b)
  {
    if cs == [] then []
    else
      var rest := Without(cs[1..], b);
      TargetsOfTail(cs);
      if cs[0].connectedTo == b then rest
      else
        TargetsOfTail([cs[0]] + rest);
        assert ([cs[0]] + rest)[1..] == rest;
        [cs[0]] + rest
  }

  /** The connections Without keeps are exactly those of `cs` that do not lead to `b`. */
  lemma {:induction false} WithoutMembers(cs: seq<Connection>, b: Neuron)
    ensures forall c :: c in Without(cs, b) ==> c in cs && c.connectedTo != b
    ensures forall c :: c in cs && c.connectedTo != b ==> c in Without(cs, b)
  {
    if cs != [] {
      WithoutMembers(cs[1..], b);
      assert forall c :: c in cs ==> c == cs[0] || c in cs[1..];
    }
  }

  lemma TargetsOfTail(cs: seq<Connection>)
    requires cs != []
    ensures Targets(cs) == [cs[0].connectedTo] + Targets(cs[1..])
    ensures RemoveAll(Targets(cs), cs[0].connectedTo) == RemoveAll(Targets(cs[1..]), cs[0].connectedTo)
    ensures forall b :: b != cs[0].connectedTo ==> RemoveAll(Targets(cs), b) == [cs[0].connectedTo] + RemoveAll(Targets(cs[1..]), b)
  {
    assert Targets(cs)[1..] == Targets(cs[1..]);
  }

  lemma TargetsAppend(cs: seq<Connection>, c: Connection)
    ensures Targets(cs + [c]) == Targets(cs) + [c.connectedTo]
  {
  }

  /** A list whose targets occur at most once each has pairwise distinct targets. */
  lemma DistinctTargets(cs: seq<Connection>)
    requires forall b :: b in Targets(cs) ==> multiset(Targets(cs))[b] == 1
    ensures forall k, l :: 0 <= k < l < |cs| ==> cs[k].connectedTo != cs[l].connectedTo
  {
    forall k, l | 0 <= k < l < |cs|
      ensures cs[k].connectedTo != cs[l].connectedTo
    {
      var ts := Targets(cs);
      if ts[k] == ts[l] {
        CountAtLeastTwo(ts, k, l);
      }
    }
  }

  lemma CountAtLeastTwo(ts: seq<Neuron>, k: nat, l: nat)
    requires k < l < |ts| && ts[k] == ts[l]
    ensures multiset(ts)[ts[k]] >= 2
  {
    assert ts == ts[..k] + [ts[k]] + ts[k + 1..l] + [ts[l]] + ts[l + 1..];
  }

  /** Filtering out a target that does not occur changes nothing. */
  lemma WithoutAbsent(cs: seq<Connection>, b: Neuron)
    requires b !in Targets(cs)
    ensures Without(cs, b) == cs
  {
    if cs != [] {
      assert Targets(cs) == [cs[0].connectedTo] + Targets(cs[1..]);
      WithoutAbsent(cs[1..], b);
    }
  }

  /** In a list with distinct targets, filtering out the first target drops just the head. */
  lemma WithoutHead(cs: seq<Connection>, owner: Neuron)
    requires cs != [] && OwnedBy(cs, owner)
    ensures Without(cs, cs[0].connectedTo) == cs[1..]
  {
    var b := cs[0].connectedTo;
    TargetsOfTail(cs);
    assert Targets(cs)[0] == b;
    assert multiset(Targets(cs))[b] == 1;
    assert multiset(Targets(cs)) == multiset{b} + multiset(Targets(cs[1..]));
    assert multiset(Targets(cs[1..]))[b] == 0;
    WithoutAbsent(cs[1..], cs[0].connectedTo);
  }

  /** Connections that all start at `owner` and lead to pairwise different targets. */
  ghost predicate OwnedBy(cs: seq<Connection>, owner: Neuron) {
    (forall c :: c in cs ==> c.connectedFrom == owner) &&
    (forall b :: b in Targets(cs) ==> multiset(Targets(cs))[b] == 1)
  }

  /** Appending a connection of `owner` to a neuron it does not reach yet keeps the list owned. */
  lemma AppendOwned(cs: seq<Connection>, c: Connection, owner: Neuron)
    requires OwnedBy(cs, owner)
    requires c.connectedFrom == owner && c.connectedTo !in Targets(cs)
    ensures Targets(cs + [c]) == Targets(cs) + [c.connectedTo]
    ensures OwnedBy(cs + [c], owner)
  {
    TargetsAppend(cs, c);
  }

  /** Filtering a list keeps it owned. */
  lemma WithoutOwned(cs: seq<Connection>, b: Neuron, owner: Neuron)
    requires OwnedBy(cs, owner)
    ensures OwnedBy(Without(cs, b), owner)
  {
    WithoutMembers(cs, b);
  }

  // ---------------------------------------------------------------------------
  // Classes.
  // ---------------------------------------------------------------------------

  /** A directed edge; its endpoints and segment count never change after creation. */
  class Connection {
    const connectedFrom: Neuron
    const connectedTo: Neuron
    const segments: real := ConnectionSegments
    var animationProgress: real
    var isAnimating: bool

    constructor (neuron: Neuron, targetNeuron: Neuron)
      ensures connectedFrom == neuron && connectedTo == targetNeuron
      ensures animationProgress == 0.0 && !isAnimating
    {
      connectedFrom := neuron;
      connectedTo := targetNeuron;
      animationProgress := 0.0;
      isAnimating := false;
    }
  }

  class Neuron {
    const x: real
    const y: real
    const kind: NeuronKind
    /** Owned outgoing connections. */
    var connectionsTo: seq<Connection>
    /** Neurons that hold a connection into this one (back-references). */
    var connectionsFrom: seq<Neuron>
    var stateActive: bool
    var restingVoltage: real
    const restingTimeConstant: real := R1 * C1
    var externalStimulation: real
    /** One weight shared by all outgoing connections. */
    var weight: real
    const trainingFactor: real := 0.01

    /** Every outgoing connection starts here, and no two lead to the same target. */
    ghost predicate Valid()
      reads this
    {
      OwnedBy(connectionsTo, this)
    }

    predicate HasConnectionTo(b: Neuron)
      reads this
    {
      b in Targets(connectionsTo)
    }

    constructor (x: real, y: real, kind: NeuronKind)
      ensures this.x == x && this.y == y && this.kind == kind
      ensures connectionsTo == [] && connectionsFrom == []
      ensures !stateActive && restingVoltage == 0.0 && externalStimulation == 0.0
      ensures weight == InitialWeight
      ensures Valid()
    {
      this.x := x;
      this.y := y;
      this.kind := kind;
      connectionsTo := [];
      connectionsFrom := [];
      stateActive := false;
      restingVoltage := 0.0;
      externalStimulation := 0.0;
      weight := InitialWeight;
    }

    /** Where the neuron is drawn for a given mouse offset. */
    function ScreenPosition(mouseOffset: Vec2): Vec2 {
      var p := Parallax(mouseOffset);
      Vec2(x + p.x, y + p.y)
    }

    /**
     * The point `pos` lies strictly inside the drawn circle: the neuron is
     * hit where it is drawn, and never from a radius or more away
     * horizontally or vertically.
     */
    function IsClicked(pos: Vec2, mouseOffset: Vec2): (hit: bool)
      reads this
      ensures pos == ScreenPosition(mouseOffset) ==> hit
      ensures hit ==> var s := ScreenPosition(mouseOffset);
        -NeuronRadius < s.x - pos.x < NeuronRadius && -NeuronRadius < s.y - pos.y < NeuronRadius
    {
      var s := ScreenPosition(mouseOffset);
      SquareAtLeast(s.x - pos.x);
      SquareAtLeast(s.y - pos.y);
      (s.x - pos.x) * (s.x - pos.x) + (s.y - pos.y) * (s.y - pos.y) < NeuronRadius * NeuronRadius
    }

    /**
     * add_connection: a new connection to `targetNeuron` unless one exists
     * already; the target records this neuron as a source. `ns` is any set
     * of neurons whose bookkeeping invariant the call is to preserve.
     */
    method AddConnection(targetNeuron: Neuron, ghost ns: set<Neuron>)
      requires Valid()
      modifies this`connectionsTo, targetNeuron`connectionsFrom
      ensures Valid()
      ensures HasConnectionTo(targetNeuron)
      ensures old(HasConnectionTo(targetNeuron)) ==>
        connectionsTo == old(connectionsTo) && targetNeuron.connectionsFrom == old(targetNeuron.connectionsFrom)
      ensures !old(HasConnectionTo(targetNeuron)) ==>
        && |connectionsTo| == |old(connectionsTo)| + 1
        && connectionsTo[..|old(connectionsTo)|] == old(connectionsTo)
        && fresh(connectionsTo[|old(connectionsTo)|])
        && connectionsTo[|old(connectionsTo)|].connectedTo == targetNeuron
        && !connectionsTo[|old(connectionsTo)|].isAnimating
        && connectionsTo[|old(connectionsTo)|].animationProgress == 0.0
        && targetNeuron.connectionsFrom == old(targetNeuron.connectionsFrom) + [this]
      ensures old(Consistent(ns)) && this in ns && targetNeuron in ns ==> Consistent(ns)
    {
      ghost var g0 := Snapshot(ns);
      ghost var wasConsistent := Consistent(ns);
      if targetNeuron !in Targets(connectionsTo) {
        var newConnection := new Connection(this, targetNeuron);
        AppendOwned(connectionsTo, newConnection, this);
        connectionsTo := connectionsTo + [newConnection];
        targetNeuron.connectionsFrom := targetNeuron.connectionsFrom + [this];
        if wasConsistent && this in ns && targetNeuron in ns {
          ConsistentAfterLink(ns, g0, this, newConnection);
        }
      }
    }

    method RemoveConnection(targetNeuron: Neuron, ghost ns: set<Neuron>)
      requires Valid()
      requires this in targetNeuron.connectionsFrom
      modifies this`connectionsTo, targetNeuron`connectionsFrom
      ensures Valid()
      ensures connectionsTo == Without(old(connectionsTo), targetNeuron)
      ensures targetNeuron.connectionsFrom == RemoveFirst(old(targetNeuron.connectionsFrom), this)
      ensures !HasConnectionTo(targetNeuron)
      ensures old(Consistent(ns)) && this in ns && targetNeuron in ns ==> Consistent(ns)
      ensures old(Consistent(ns)) && this in ns && targetNeuron in ns ==> Snapshot(ns) == Unlink(old(Snapshot(ns)), this, targetNeuron)
    {
      ghost var g0 := Snapshot(ns);
      WithoutOwned(connectionsTo, targetNeuron, this);
      connectionsTo := Without(connectionsTo, targetNeuron);
      targetNeuron.connectionsFrom := RemoveFirst(targetNeuron.connectionsFrom, this);
      if old(Consistent(ns)) && this in ns && targetNeuron in ns {
        ConsistentAfterUnlink(ns, g0, this, targetNeuron);
      }
    }

    /**
     * remove_all_connections: every outgoing connection is removed through
     * remove_connection, over a copy of the list; then every source removes
     * its connection to this neuron, again over a copy. Afterwards both lists
     * are empty and the bookkeeping of `ns` still holds, so (lemma Isolated)
     * no neuron of `ns` is linked with this one any more.
     */
    method RemoveAllConnections(ghost ns: set<Neuron>)
      requires Consistent(ns) && this in ns
      modifies ns`connectionsTo, ns`connectionsFrom
      ensures connectionsTo == [] && connectionsFrom == []
      ensures Consistent(ns)
      ensures forall a :: a in ns && a != this ==>
        a.connectionsTo == Without(old(a.connectionsTo), this) && a.connectionsFrom == RemoveAll(old(a.connectionsFrom), this)
    {
      RemoveOutgoing(ns);
      RemoveIncoming(ns);
    }

    /**
     * The first loop of remove_all_connections. On the graph it applies
     * Unlink once per outgoing connection; every other neuron keeps its
     * connections and loses its (single) record of this neuron as a source.
     */
    method RemoveOutgoing(ghost ns: set<Neuron>)
      requires Consistent(ns) && this in ns
      modifies this`connectionsTo, ns`connectionsFrom
      ensures connectionsTo == [] && Consistent(ns)
      ensures connectionsFrom == RemoveAll(old(connectionsFrom), this)
      ensures forall a :: a in ns && a != this ==>
        a.connectionsTo == old(a.connectionsTo) && a.connectionsFrom == RemoveAll(old(a.connectionsFrom), this)
    {
      ghost var g0 := Snapshot(ns);
      ghost var g := g0;
      OutgoingDetachedStart(g0, this);
      var cs := connectionsTo;
      var i := 0;
      while i < |cs|
        invariant 0 <= i <= |cs|
        invariant Snapshot(ns) == g && Bookkept(g)
        invariant OutgoingDetached(g0, g, this)
        invariant connectionsTo == cs[i..]
      {
        var target := cs[i].connectedTo;
        assert g[this] == Links(connectionsTo, connectionsFrom);
        OutgoingDetachedStep(g0, g, this);
        SuffixTail(cs, i);
        DropTarget(target, ns);
        g := Unlink(g, this, target);
        i := i + 1;
      }
      forall a | a in ns && a != this
        ensures a.connectionsTo == old(a.connectionsTo) && a.connectionsFrom == RemoveAll(old(a.connectionsFrom), this)
      {
        assert g[a] == Links(a.connectionsTo, a.connectionsFrom);
      }
      assert g[this] == Links(connectionsTo, connectionsFrom);
    }

    /** One iteration of the first loop: the first remaining connection is removed through remove_connection. */
    method DropTarget(target: Neuron, ghost ns: set<Neuron>)
      requires Consistent(ns) && this in ns
      requires connectionsTo != [] && connectionsTo[0].connectedTo == target && target in ns
      modifies this`connectionsTo, target`connectionsFrom
      ensures connectionsTo == old(connectionsTo)[1..] && Consistent(ns)
      ensures target.connectionsFrom == RemoveFirst(old(target.connectionsFrom), this)
      ensures Snapshot(ns) == Unlink(old(Snapshot(ns)), this, target)
    {
      ConsistentOwned(ns, this);
      assert target == Targets(connectionsTo)[0];
      ConsistentTarget(ns, this, target);
      WithoutHead(connectionsTo, this);
      RemoveConnection(target, ns);
    }

    /**
     * The second loop of remove_all_connections. On the graph it applies
     * Unlink once per source; every other neuron keeps its sources and
     * loses its connections to this neuron.
     */
    method RemoveIncoming(ghost ns: set<Neuron>)
      requires Consistent(ns) && this in ns && connectionsTo == []
      modifies ns`connectionsTo, this`connectionsFrom
      ensures connectionsTo == [] && connectionsFrom == [] && Consistent(ns)
      ensures forall a :: a in ns && a != this ==>
        a.connectionsFrom == old(a.connectionsFrom) && a.connectionsTo == Without(old(a.connectionsTo), this)
    {
      ghost var g0 := Snapshot(ns);
      ghost var g := g0;
      assert g0[this] == Links(connectionsTo, connectionsFrom);
      IncomingDetachedStart(g0, this);
      var fs := connectionsFrom;
      var j := 0;
      while j < |fs|
        invariant 0 <= j <= |fs|
        invariant Snapshot(ns) == g && Bookkept(g)
        invariant IncomingDetached(g0, g, this)
        invariant connectionsTo == [] && connectionsFrom == fs[j..]
      {
        var source := fs[j];
        assert g[this] == Links(connectionsTo, connectionsFrom);
        IncomingDetachedStep(g0, g, this);
        SuffixTail(fs, j);
        DropSource(source, ns);
        g := Unlink(g, source, this);
        j := j + 1;
      }
      forall a | a in ns && a != this
        ensures a.connectionsFrom == old(a.connectionsFrom) && a.connectionsTo == Without(old(a.connectionsTo), this)
      {
        assert g[a] == Links(a.connectionsTo, a.connectionsFrom);
      }
    }

    /** One iteration of the second loop: the first remaining source removes its connection to this neuron. */
    method DropSource(source: Neuron, ghost ns: set<Neuron>)
      requires Consistent(ns) && this in ns && connectionsTo == []
      requires connectionsFrom != [] && connectionsFrom[0] == source && source in ns
      modifies source`connectionsTo, this`connectionsFrom
      ensures connectionsTo == [] && connectionsFrom == old(connectionsFrom)[1..] && Consistent(ns)
      ensures source.connectionsTo == Without(old(source.connectionsTo), this)
      ensures Snapshot(ns) == Unlink(old(Snapshot(ns)), source, this)
    {
      ConsistentSource(ns, this, source);
      RemoveFirstOfHead(connectionsFrom);
      source.RemoveConnection(this, ns);
    }

    /**
     * fire: the neuron becomes active and launches a signal on every outgoing
     * connection. The voltage reset sits inside the loop, so a neuron without
     * outgoing connections keeps its voltage.
     */
    method Fire()
      modifies this`stateActive, this`restingVoltage, ConnSet(connectionsTo)
      ensures stateActive
      ensures Signals(connectionsTo) == Launched(|connectionsTo|)
      ensures restingVoltage == if connectionsTo == [] then old(restingVoltage) else 0.0
    {
      stateActive := true;
      var i := 0;
      while i < |connectionsTo|
        invariant 0 <= i <= |connectionsTo|
        invariant forall k :: 0 <= k < i ==> connectionsTo[k].isAnimating && connectionsTo[k].animationProgress == 0.0
        invariant restingVoltage == if i == 0 then old(restingVoltage) else 0.0
        invariant stateActive
      {
        var connection := connectionsTo[i];
        connection.isAnimating := true;
        connection.animationProgress := 0.0;
        restingVoltage := 0.0;
        i := i + 1;
      }
    }

    /**
     * update_neuron for a tick of length `dt`. `propagationFactor` is the
     * signal speed and `decay` the value of exp(-dt / tau) for this tick.
     * An active neuron advances its signals, is reinforced once per arrival
     * and stimulates each arrival's target; a resting one integrates its
     * stimulation, decays, and fires at the threshold. Either way the
     * pending stimulation is consumed.
     */
    method UpdateNeuron(dt: real, propagationFactor: real, decay: real)
      requires Valid()
      modifies this`stateActive, this`restingVoltage, this`weight, this`externalStimulation
      modifies ConnSet(connectionsTo), TargetSet(connectionsTo)`externalStimulation
      ensures externalStimulation == 0.0
      ensures old(stateActive) ==>
        var step := dt * propagationFactor;
        && Signals(connectionsTo) == Propagate(old(Signals(connectionsTo)), step)
        && weight == old(weight) + Reinforcement(old(Signals(connectionsTo)), trainingFactor, step)
        && stateActive == AnyAnimating(Signals(connectionsTo))
        && restingVoltage == old(restingVoltage)
        && forall k :: 0 <= k < |connectionsTo| && connectionsTo[k].connectedTo != this ==>
             connectionsTo[k].connectedTo.externalStimulation ==
             old(connectionsTo[k].connectedTo.externalStimulation) + Delivery(old(Signals(connectionsTo)), old(weight), trainingFactor, step, k)
      ensures !old(stateActive) ==>
        var v := Integrate(old(restingVoltage), old(externalStimulation), dt, decay);
        && weight == DecayWeight(old(weight), trainingFactor)
        && stateActive == (v >= VThreshold)
        && restingVoltage == (if v >= VThreshold && connectionsTo != [] then 0.0 else v)
        && Signals(connectionsTo) == (if v >= VThreshold then Launched(|connectionsTo|) else old(Signals(connectionsTo)))
        && forall b :: b in TargetSet(connectionsTo) && b != this ==> b.externalStimulation == old(b.externalStimulation)
    {
      if stateActive {
        DistinctTargets(connectionsTo);
        Propagation(dt * propagationFactor, ConnSet(connectionsTo), TargetSet(connectionsTo));
      } else {
        if externalStimulation > 0.0 {
          restingVoltage := restingVoltage + (VMax - restingVoltage) * (externalStimulation * dt / restingTimeConstant);
        }
        restingVoltage := restingVoltage * decay;
        if weight > WeightFloor {
          weight := weight - trainingFactor / 100.0;
        }
        if restingVoltage >= VThreshold {
          Fire();
        }
      }
      externalStimulation := 0.0;
    }

    /**
     * The active branch of update_neuron: one tick of every animating
     * signal. Its caller establishes that the connections, and their
     * targets, are pairwise different.
     */
    method Propagation(step: real, ghost conns: set<Connection>, ghost targets: set<Neuron>)
      requires stateActive
      requires forall k, l :: 0 <= k < l < |connectionsTo| ==> connectionsTo[k] != connectionsTo[l]
      requires forall k, l :: 0 <= k < l < |connectionsTo| ==> connectionsTo[k].connectedTo != connectionsTo[l].connectedTo
      requires conns == ConnSet(connectionsTo) && targets == TargetSet(connectionsTo)
      requires forall k :: 0 <= k < |connectionsTo| ==> connectionsTo[k] in conns && connectionsTo[k].connectedTo in targets
      modifies this`stateActive, this`weight, conns, targets`externalStimulation
      ensures Signals(connectionsTo) == Propagate(old(Signals(connectionsTo)), step)
      ensures weight == old(weight) + Reinforcement(old(Signals(connectionsTo)), trainingFactor, step)
      ensures stateActive == AnyAnimating(Signals(connectionsTo))
      ensures Stimuli(connectionsTo) ==
        Delivered(old(Stimuli(connectionsTo)), old(Signals(connectionsTo)), old(weight), trainingFactor, step, |connectionsTo|)
    {
      ghost var ss := Signals(connectionsTo);
      ghost var e0 := Stimuli(connectionsTo);
      var allAnimationsFinished := AdvanceAll(connectionsTo, step, ss, e0, conns, targets);
      SignalsAre(connectionsTo, Propagate(ss, step));
      StimuliAre(connectionsTo, Delivered(e0, ss, old(weight), trainingFactor, step, |connectionsTo|));
      if allAnimationsFinished {
        stateActive := false;
      }
    }

    /**
     * The loop of the active branch over the connections `cs`, which start
     * with signals `ss` and target stimulations `e0`. Reports whether every
     * signal has finished.
     */
    method AdvanceAll(cs: seq<Connection>, step: real, ghost ss: seq<Signal>, ghost e0: seq<real>,
                      ghost conns: set<Connection>, ghost targets: set<Neuron>) returns (allAnimationsFinished: bool)
      requires forall k, l :: 0 <= k < l < |cs| ==> cs[k] != cs[l]
      requires forall k, l :: 0 <= k < l < |cs| ==> cs[k].connectedTo != cs[l].connectedTo
      requires conns == ConnSet(cs) && targets == TargetSet(cs)
      requires forall k :: 0 <= k < |cs| ==> cs[k] in conns && cs[k].connectedTo in targets
      requires |ss| == |cs| && forall k :: 0 <= k < |cs| ==> SignalOf(cs[k]) == ss[k]
      requires |e0| == |cs| && forall k :: 0 <= k < |cs| ==> cs[k].connectedTo.externalStimulation == e0[k]
      modifies this`weight, conns, targets`externalStimulation
      ensures forall k :: 0 <= k < |cs| ==> SignalOf(cs[k]) == Propagate(ss, step)[k]
      ensures forall k :: 0 <= k < |cs| ==>
        cs[k].connectedTo.externalStimulation == Delivered(e0, ss, old(weight), trainingFactor, step, |cs|)[k]
      ensures weight == old(weight) + Reinforcement(ss, trainingFactor, step)
      ensures allAnimationsFinished == !AnyAnimating(Propagate(ss, step))
    {
      ghost var next := Propagate(ss, step);
      ghost var w0 := weight;
      allAnimationsFinished := true;
      ghost var pending := 0;
      var i := 0;
      while i < |cs|
        invariant 0 <= i <= |cs|
        invariant forall k :: 0 <= k < i ==> SignalOf(cs[k]) == next[k]
        invariant forall k :: i <= k < |cs| ==> SignalOf(cs[k]) == ss[k]
        invariant forall k :: 0 <= k < |cs| ==>
          cs[k].connectedTo.externalStimulation == e0[k] + if k < i then Delivery(ss, w0, trainingFactor, step, k) else 0.0
        invariant weight == w0 + Reinforcement(ss[..i], trainingFactor, step)
        invariant allAnimationsFinished ==> forall k :: 0 <= k < i ==> !next[k].animating
        invariant !allAnimationsFinished ==> 0 <= pending < i && next[pending].animating
      {
        ReinforcementSnoc(ss, i, trainingFactor, step);
        var finished := Advance1(cs, i, step);
        if !finished {
          allAnimationsFinished := false;
          pending := i;
        }
        i := i + 1;
      }
      assert ss[..i] == ss;
      if !allAnimationsFinished {
        assert next[pending].animating;
      }
    }

    /**
     * One iteration of the active loop, on connection `i` of `cs`: an
     * animating connection moves on; if it arrives it stops, reinforces the
     * weight and stimulates its target with the reinforced weight. Returns
     * false iff the connection is still animating.
     */
    method Advance1(cs: seq<Connection>, i: nat, step: real) returns (finished: bool)
      requires i < |cs|
      requires forall k, l :: 0 <= k < l < |cs| ==> cs[k] != cs[l]
      requires forall k, l :: 0 <= k < l < |cs| ==> cs[k].connectedTo != cs[l].connectedTo
      modifies cs[i], this`weight, cs[i].connectedTo`externalStimulation
      ensures forall k :: 0 <= k < |cs| && k != i ==>
        SignalOf(cs[k]) == old(SignalOf(cs[k])) && cs[k].connectedTo.externalStimulation == old(cs[k].connectedTo.externalStimulation)
      ensures SignalOf(cs[i]) == Advance(old(SignalOf(cs[i])), step)
      ensures finished == !SignalOf(cs[i]).animating
      ensures weight == old(weight) + if Completes(old(SignalOf(cs[i])), step) then trainingFactor else 0.0
      ensures cs[i].connectedTo.externalStimulation ==
        old(cs[i].connectedTo.externalStimulation) + if Completes(old(SignalOf(cs[i])), step) then 25.0 * weight else 0.0
    {
      var connection := cs[i];
      finished := true;
      if connection.isAnimating {
        connection.animationProgress := connection.animationProgress + step;
        if connection.animationProgress >= connection.segments {
          connection.isAnimating := false;
          weight := weight + trainingFactor;
          connection.connectedTo.externalStimulation := connection.connectedTo.externalStimulation + 25.0 * weight;
        } else {
          finished := false;
        }
      }
    }
  }

  /** A square is non-negative, and at least NeuronRadius^2 once the value is a radius away from zero. */
  lemma SquareAtLeast(d: real)
    ensures d * d >= 0.0
    ensures d >= NeuronRadius || -d >= NeuronRadius ==> d * d >= NeuronRadius * NeuronRadius
  {
    if d >= 0.0 {
      NonnegativeProduct(d, d);
    } else {
      NonnegativeProduct(-d, -d);
    }
    if d >= NeuronRadius {
      NonnegativeProduct(d - NeuronRadius, d + NeuronRadius);
    } else if -d >= NeuronRadius {
      NonnegativeProduct(-d - NeuronRadius, -d + NeuronRadius);
    }
  }

  // ---------------------------------------------------------------------------
  // The connection graph as a value, and the bookkeeping invariant.
  // ---------------------------------------------------------------------------

  /** One neuron's two lists: its outgoing connections, and the neurons that connect to it. */
  datatype Links = Links(outgoing: seq<Connection>, sources: seq<Neuron>)

  type Graph = map<Neuron, Links>

  /** The lists of every neuron in `ns`. */
  ghost function Snapshot(ns: set<Neuron>): (g: Graph)
    reads ns
    ensures g.Keys == ns
  {
    map a | a in ns :: Links(a.connectionsTo, a.connectionsFrom)
  }

  /** Every neuron owns its outgoing connections. */
  ghost predicate AllOwned(g: Graph) {
    forall a :: a in g ==> OwnedBy(g[a].outgoing, a)
  }

  /** Both lists of every neuron stay inside the graph. */
  ghost predicate Closed(g: Graph) {
    (forall a, b :: a in g && b in Targets(g[a].outgoing) ==> b in g) &&
    (forall a, b :: a in g && b in g[a].sources ==> b in g)
  }

  /** `a` occurs among `b`'s sources exactly as often as `b` occurs among `a`'s targets. */
  ghost predicate Mirrored(g: Graph) {
    forall a, b {:trigger multiset(g[b].sources)[a]} {:trigger multiset(Targets(g[a].outgoing))[b]} ::
      a in g && b in g ==> multiset(g[b].sources)[a] == multiset(Targets(g[a].outgoing))[b]
  }

  /** The bookkeeping invariant of the connection graph. */
  ghost predicate Bookkept(g: Graph) {
    AllOwned(g) && Closed(g) && Mirrored(g)
  }

  /** add_connection on the graph: `c` is appended to `src`'s connections and `src` to its target's sources. */
  ghost function Link(g: Graph, src: Neuron, c: Connection): Graph
    requires src in g && c.connectedTo in g
  {
    var g1 := g[src := g[src].(outgoing := g[src].outgoing + [c])];
    g1[c.connectedTo := g1[c.connectedTo].(sources := g1[c.connectedTo].sources + [src])]
  }

  /** remove_connection on the graph: every connection from `src` to `dst` goes, and one occurrence of `src` among `dst`'s sources. */
  ghost function Unlink(g: Graph, src: Neuron, dst: Neuron): Graph
    requires src in g && dst in g
  {
    var g1 := g[src := g[src].(outgoing := Without(g[src].outgoing, dst))];
    g1[dst := g1[dst].(sources := RemoveFirst(g1[dst].sources, src))]
  }

  /** How linking changes the lists of any two neurons `a` and `b`. */
  lemma LinkAt(g: Graph, src: Neuron, c: Connection, a: Neuron, b: Neuron)
    requires src in g && c.connectedTo in g && a in g && b in g
    ensures Link(g, src, c).Keys == g.Keys
    ensures Link(g, src, c)[a].outgoing == if a == src then g[a].outgoing + [c] else g[a].outgoing
    ensures Targets(Link(g, src, c)[a].outgoing) == if a == src then Targets(g[a].outgoing) + [c.connectedTo] else Targets(g[a].outgoing)
    ensures Link(g, src, c)[b].sources == if b == c.connectedTo then g[b].sources + [src] else g[b].sources
    ensures multiset(Targets(Link(g, src, c)[a].outgoing))[b] == multiset(Targets(g[a].outgoing))[b] + (if a == src && b == c.connectedTo then 1 else 0)
    ensures multiset(Link(g, src, c)[b].sources)[a] == multiset(g[b].sources)[a] + (if a == src && b == c.connectedTo then 1 else 0)
  {
    TargetsAppend(g[src].outgoing, c);
  }

  /** Linking through a new connection of `src` to a neuron it does not reach yet keeps the bookkeeping. */
  lemma LinkKeepsBookkept(g: Graph, src: Neuron, c: Connection)
    requires Bookkept(g) && src in g && c.connectedTo in g
    requires c.connectedFrom == src && c.connectedTo !in Targets(g[src].outgoing)
    ensures Bookkept(Link(g, src, c))
  {
    LinkKeepsOwned(g, src, c);
    LinkKeepsClosed(g, src, c);
    LinkKeepsMirrored(g, src, c);
  }

  lemma LinkKeepsOwned(g: Graph, src: Neuron, c: Connection)
    requires AllOwned(g) && src in g && c.connectedTo in g
    requires c.connectedFrom == src && c.connectedTo !in Targets(g[src].outgoing)
    ensures AllOwned(Link(g, src, c))
  {
    var g' := Link(g, src, c);
    forall a | a in g'
      ensures OwnedBy(g'[a].outgoing, a)
    {
      LinkAt(g, src, c, a, a);
      if a == src {
        AppendOwned(g[a].outgoing, c, a);
      }
    }
  }

  lemma LinkKeepsClosed(g: Graph, src: Neuron, c: Connection)
    requires Closed(g) && src in g && c.connectedTo in g
    ensures Closed(Link(g, src, c))
  {
    var g' := Link(g, src, c);
    forall a, b | a in g' && b in Targets(g'[a].outgoing)
      ensures b in g'
    {
      LinkAt(g, src, c, a, a);
    }
    forall a, b | a in g' && b in g'[a].sources
      ensures b in g'
    {
      LinkAt(g, src, c, a, a);
    }
  }

  lemma LinkKeepsMirrored(g: Graph, src: Neuron, c: Connection)
    requires Mirrored(g) && src in g && c.connectedTo in g
    ensures Mirrored(Link(g, src, c))
  {
    var g' := Link(g, src, c);
    forall a, b | a in g' && b in g'
      ensures multiset(g'[b].sources)[a] == multiset(Targets(g'[a].outgoing))[b]
    {
      LinkAt(g, src, c, a, b);
    }
  }

  /** How unlinking changes the lists of a neuron `a`. */
  lemma UnlinkAt(g: Graph, src: Neuron, dst: Neuron, a: Neuron)
    requires src in g && dst in g && a in g
    ensures Unlink(g, src, dst).Keys == g.Keys
    ensures Unlink(g, src, dst)[a].outgoing == if a == src then Without(g[a].outgoing, dst) else g[a].outgoing
    ensures Unlink(g, src, dst)[a].sources == if a == dst then RemoveFirst(g[a].sources, src) else g[a].sources
  {
  }

  /** Unlinking keeps the bookkeeping, and leaves the two neurons unlinked. */
  lemma UnlinkKeepsBookkept(g: Graph, src: Neuron, dst: Neuron)
    requires Bookkept(g) && src in g && dst in g
    requires src in g[dst].sources
    ensures Bookkept(Unlink(g, src, dst))
    ensures dst !in Targets(Unlink(g, src, dst)[src].outgoing)
    ensures src !in Unlink(g, src, dst)[dst].sources
  {
    UnlinkAt(g, src, dst, src);
    UnlinkAt(g, src, dst, dst);
    UnlinkKeepsOwned(g, src, dst);
    UnlinkKeepsClosed(g, src, dst);
    UnlinkKeepsMirrored(g, src, dst);
  }

  lemma UnlinkKeepsOwned(g: Graph, src: Neuron, dst: Neuron)
    requires AllOwned(g) && src in g && dst in g
    ensures AllOwned(Unlink(g, src, dst))
  {
    var g' := Unlink(g, src, dst);
    forall a | a in g'
      ensures OwnedBy(g'[a].outgoing, a)
    {
      UnlinkAt(g, src, dst, a);
      if a == src {
        WithoutOwned(g[a].outgoing, dst, a);
      }
    }
  }

  lemma UnlinkKeepsClosed(g: Graph, src: Neuron, dst: Neuron)
    requires Closed(g) && src in g && dst in g
    ensures Closed(Unlink(g, src, dst))
  {
    var g' := Unlink(g, src, dst);
    forall a, b | a in g' && b in Targets(g'[a].outgoing)
      ensures b in g'
    {
      UnlinkAt(g, src, dst, a);
    }
    forall a, b | a in g' && b in g'[a].sources
      ensures b in g'
    {
      UnlinkAt(g, src, dst, a);
    }
  }

  /** How unlinking a pair linked once changes how often `a` is among `b`'s sources and `b` among `a`'s targets. */
  lemma UnlinkCounts(g: Graph, src: Neuron, dst: Neuron, a: Neuron, b: Neuron)
    requires src in g && dst in g && a in g && b in g
    requires src in g[dst].sources
    ensures multiset(Unlink(g, src, dst)[b].sources)[a] == multiset(g[b].sources)[a] - (if a == src && b == dst then 1 else 0)
    ensures multiset(Targets(Unlink(g, src, dst)[a].outgoing))[b] == if a == src && b == dst then 0 else multiset(Targets(g[a].outgoing))[b]
  {
    UnlinkAt(g, src, dst, a);
    UnlinkAt(g, src, dst, b);
  }

  /** Both lists lose exactly their `src`/`dst` entries, which were equally many before: one. */
  lemma UnlinkKeepsMirrored(g: Graph, src: Neuron, dst: Neuron)
    requires Mirrored(g) && AllOwned(g) && src in g && dst in g
    requires src in g[dst].sources
    ensures Mirrored(Unlink(g, src, dst))
  {
    var g' := Unlink(g, src, dst);
    assert multiset(g[dst].sources)[src] > 0;
    assert multiset(Targets(g[src].outgoing))[dst] == 1;
    forall a, b | a in g' && b in g'
      ensures multiset(g'[b].sources)[a] == multiset(Targets(g'[a].outgoing))[b]
    {
      UnlinkAt(g, src, dst, a);
      UnlinkCounts(g, src, dst, a, b);
    }
  }

  /**
   * Progress of the first removal loop from `g0` to `g`: every other neuron
   * keeps its connections, and those no longer among `n`'s targets have
   * lost their record of `n` as a source.
   */
  ghost predicate OutgoingDetached(g0: Graph, g: Graph, n: Neuron) {
    && g.Keys == g0.Keys && n in g
    && (forall a :: a in g && a != n ==> g[a].outgoing == g0[a].outgoing)
    && forall a :: a in g ==>
      g[a].sources == if a in Targets(g[n].outgoing) then g0[a].sources else RemoveAll(g0[a].sources, n)
  }

  /** Before the first loop, a neuron that `n` does not reach does not list `n` as a source. */
  lemma OutgoingDetachedStart(g: Graph, n: Neuron)
    requires Bookkept(g) && n in g
    ensures OutgoingDetached(g, g, n)
  {
    forall a | a in g && a !in Targets(g[n].outgoing)
      ensures RemoveAll(g[a].sources, n) == g[a].sources
    {
      assert multiset(g[a].sources)[n] == multiset(Targets(g[n].outgoing))[a];
      RemoveAllAbsent(g[a].sources, n);
    }
  }

  /** In a bookkept graph the first target of `n` lists `n` exactly once and occurs once among `n`'s targets. */
  lemma OutgoingHead(g: Graph, n: Neuron)
    requires Bookkept(g) && n in g && g[n].outgoing != []
    ensures var t := g[n].outgoing[0].connectedTo;
      && t in g && n in g[t].sources
      && RemoveFirst(g[t].sources, n) == RemoveAll(g[t].sources, n)
      && Without(g[n].outgoing, t) == g[n].outgoing[1..]
      && t !in Targets(g[n].outgoing[1..])
      && forall b :: b != t ==> (b in Targets(g[n].outgoing[1..]) <==> b in Targets(g[n].outgoing))
  {
    var cs := g[n].outgoing;
    var t := cs[0].connectedTo;
    assert t == Targets(cs)[0];
    assert t in g;
    assert multiset(g[t].sources)[n] == multiset(Targets(cs))[t] == 1;
    assert multiset(RemoveFirst(g[t].sources, n))[n] == 0;
    RemoveFirstOnce(g[t].sources, n);
    WithoutHead(cs, n);
    TargetsOfTail(cs);
    HeadOnce(Targets(cs));
  }

  /** One iteration of the first loop: unlinking the first target keeps the graph bookkept and the progress invariant. */
  lemma OutgoingDetachedStep(g0: Graph, g: Graph, n: Neuron)
    requires Bookkept(g) && OutgoingDetached(g0, g, n) && g[n].outgoing != []
    ensures g[n].outgoing[0].connectedTo in g
    ensures Bookkept(Unlink(g, n, g[n].outgoing[0].connectedTo))
    ensures OutgoingDetached(g0, Unlink(g, n, g[n].outgoing[0].connectedTo), n)
  {
    var t := g[n].outgoing[0].connectedTo;
    OutgoingHead(g, n);
    UnlinkKeepsBookkept(g, n, t);
    OutgoingUnlinked(g0, g, n, t);
  }

  /** Unlinking `n`'s first target `t`, which listed `n` once, advances the first loop's progress invariant. */
  lemma OutgoingUnlinked(g0: Graph, g: Graph, n: Neuron, t: Neuron)
    requires OutgoingDetached(g0, g, n) && g[n].outgoing != [] && t == g[n].outgoing[0].connectedTo && t in g
    requires RemoveFirst(g[t].sources, n) == RemoveAll(g[t].sources, n)
    requires Without(g[n].outgoing, t) == g[n].outgoing[1..]
    requires t !in Targets(g[n].outgoing[1..])
    requires forall b :: b != t ==> (b in Targets(g[n].outgoing[1..]) <==> b in Targets(g[n].outgoing))
    ensures OutgoingDetached(g0, Unlink(g, n, t), n)
  {
    var g' := Unlink(g, n, t);
    UnlinkAt(g, n, t, n);
    forall a | a in g' && a != n
      ensures g'[a].outgoing == g0[a].outgoing
    {
      UnlinkAt(g, n, t, a);
    }
    forall a | a in g'
      ensures g'[a].sources == if a in Targets(g'[n].outgoing) then g0[a].sources else RemoveAll(g0[a].sources, n)
    {
      UnlinkAt(g, n, t, a);
    }
  }

  /**
   * Progress of the second removal loop from `g0` to `g`: `n` has no
   * connections, every other neuron keeps its sources, and those no longer
   * among `n`'s sources have lost their connections to `n`.
   */
  ghost predicate IncomingDetached(g0: Graph, g: Graph, n: Neuron) {
    && g.Keys == g0.Keys && n in g && g[n].outgoing == []
    && forall a :: a in g && a != n ==>
      && g[a].sources == g0[a].sources
      && g[a].outgoing == if a in g[n].sources then g0[a].outgoing else Without(g0[a].outgoing, n)
  }

  /** Before the second loop, a neuron that `n` does not list as a source has no connection to `n`. */
  lemma IncomingDetachedStart(g: Graph, n: Neuron)
    requires Bookkept(g) && n in g && g[n].outgoing == []
    ensures IncomingDetached(g, g, n)
  {
    forall a | a in g && a != n && a !in g[n].sources
      ensures Without(g[a].outgoing, n) == g[a].outgoing
    {
      assert multiset(g[n].sources)[a] == multiset(Targets(g[a].outgoing))[n];
      WithoutAbsent(g[a].outgoing, n);
    }
  }

  /** In a bookkept graph where `n` has no connections, its first source is another neuron, listed once, with a connection to `n`. */
  lemma IncomingHead(g: Graph, n: Neuron)
    requires Bookkept(g) && n in g && g[n].outgoing == [] && g[n].sources != []
    ensures var s := g[n].sources[0];
      && s in g && s != n && s in g[n].sources
      && s !in g[n].sources[1..]
      && forall b :: b != s ==> (b in g[n].sources[1..] <==> b in g[n].sources)
  {
    var s := g[n].sources[0];
    assert s in g[n].sources;
    assert multiset(g[n].sources)[s] == multiset(Targets(g[s].outgoing))[n];
    assert multiset(g[n].sources)[s] == 1;
    HeadOnce(g[n].sources);
  }

  /** One iteration of the second loop: unlinking the first source from `n` keeps the graph bookkept and the progress invariant. */
  lemma IncomingDetachedStep(g0: Graph, g: Graph, n: Neuron)
    requires Bookkept(g) && IncomingDetached(g0, g, n) && g[n].sources != []
    ensures g[n].sources[0] in g && n in g
    ensures Bookkept(Unlink(g, g[n].sources[0], n))
    ensures IncomingDetached(g0, Unlink(g, g[n].sources[0], n), n)
  {
    var s := g[n].sources[0];
    IncomingHead(g, n);
    UnlinkKeepsBookkept(g, s, n);
    IncomingUnlinked(g0, g, n, s);
  }

  /** Unlinking `n`'s first source `s`, listed once, from `n` advances the second loop's progress invariant. */
  lemma IncomingUnlinked(g0: Graph, g: Graph, n: Neuron, s: Neuron)
    requires IncomingDetached(g0, g, n) && g[n].sources != [] && s == g[n].sources[0] && s in g && s != n
    requires s !in g[n].sources[1..]
    requires forall b :: b != s ==> (b in g[n].sources[1..] <==> b in g[n].sources)
    ensures IncomingDetached(g0, Unlink(g, s, n), n)
  {
    var g' := Unlink(g, s, n);
    UnlinkAt(g, s, n, n);
    RemoveFirstOfHead(g[n].sources);
    forall a | a in g' && a != n
      ensures g'[a].sources == g0[a].sources
      ensures g'[a].outgoing == if a in g'[n].sources then g0[a].outgoing else Without(g0[a].outgoing, n)
    {
      UnlinkAt(g, s, n, a);
    }
  }

  /** The bookkeeping invariant of a set of neurons. */
  ghost predicate Consistent(ns: set<Neuron>)
    reads ns
  {
    Bookkept(Snapshot(ns))
  }

  /** In a consistent set every neuron owns its outgoing connections. */
  lemma ConsistentOwned(ns: set<Neuron>, a: Neuron)
    requires Consistent(ns) && a in ns
    ensures OwnedBy(a.connectionsTo, a)
  {
    assert Snapshot(ns)[a] == Links(a.connectionsTo, a.connectionsFrom);
  }

  /** In a consistent set a target of `a` is in the set and lists `a` among its sources. */
  lemma ConsistentTarget(ns: set<Neuron>, a: Neuron, b: Neuron)
    requires Consistent(ns) && a in ns && b in Targets(a.connectionsTo)
    ensures b in ns && a in b.connectionsFrom
  {
    var g := Snapshot(ns);
    assert g[a] == Links(a.connectionsTo, a.connectionsFrom);
    assert g[b] == Links(b.connectionsTo, b.connectionsFrom);
    assert multiset(g[b].sources)[a] == multiset(Targets(g[a].outgoing))[b];
  }

  /** In a consistent set a source of `a` is in the set, owns its connections and has one to `a`. */
  lemma ConsistentSource(ns: set<Neuron>, a: Neuron, b: Neuron)
    requires Consistent(ns) && a in ns && b in a.connectionsFrom
    ensures b in ns && a in Targets(b.connectionsTo) && OwnedBy(b.connectionsTo, b)
  {
    var g := Snapshot(ns);
    assert g[a] == Links(a.connectionsTo, a.connectionsFrom);
    assert g[b] == Links(b.connectionsTo, b.connectionsFrom);
    assert multiset(g[a].sources)[b] == multiset(Targets(g[b].outgoing))[a];
  }

  /** A neuron with empty lists is linked with no neuron of a consistent set. */
  lemma Isolated(ns: set<Neuron>, a: Neuron, b: Neuron)
    requires Consistent(ns) && a in ns && b in ns
    requires a.connectionsTo == [] && a.connectionsFrom == []
    ensures a !in Targets(b.connectionsTo) && a !in b.connectionsFrom
  {
    var g := Snapshot(ns);
    assert g[a] == Links(a.connectionsTo, a.connectionsFrom);
    assert g[b] == Links(b.connectionsTo, b.connectionsFrom);
    assert multiset(g[a].sources)[b] == multiset(Targets(g[b].outgoing))[a];
    assert multiset(g[b].sources)[a] == multiset(Targets(g[a].outgoing))[b];
  }

  /** Consistency is bookkeeping of any graph that holds exactly the neurons' current lists. */
  lemma ConsistentFrom(ns: set<Neuron>, g: Graph)
    requires Bookkept(g) && g.Keys == ns
    requires forall a :: a in ns ==> a.connectionsTo == g[a].outgoing && a.connectionsFrom == g[a].sources
    ensures Consistent(ns) && Snapshot(ns) == g
  {
    var h := Snapshot(ns);
    forall a | a in ns
      ensures h[a] == g[a]
    {
    }
    assert h == g;
  }

  /** After add_connection has changed the two lists Link changes, the neurons are still consistent. */
  lemma ConsistentAfterLink(ns: set<Neuron>, g0: Graph, src: Neuron, c: Connection)
    requires Bookkept(g0) && g0.Keys == ns && src in ns && c.connectedTo in ns
    requires c.connectedFrom == src && c.connectedTo !in Targets(g0[src].outgoing)
    requires src.connectionsTo == g0[src].outgoing + [c]
    requires c.connectedTo.connectionsFrom == g0[c.connectedTo].sources + [src]
    requires forall a :: a in ns && a != src ==> a.connectionsTo == g0[a].outgoing
    requires forall a :: a in ns && a != c.connectedTo ==> a.connectionsFrom == g0[a].sources
    ensures Consistent(ns)
  {
    LinkKeepsBookkept(g0, src, c);
    LinkedLists(ns, g0, src, c);
    ConsistentFrom(ns, Link(g0, src, c));
  }

  /** The neurons' lists are those of Link. */
  lemma LinkedLists(ns: set<Neuron>, g0: Graph, src: Neuron, c: Connection)
    requires g0.Keys == ns && src in ns && c.connectedTo in ns
    requires src.connectionsTo == g0[src].outgoing + [c]
    requires c.connectedTo.connectionsFrom == g0[c.connectedTo].sources + [src]
    requires forall a :: a in ns && a != src ==> a.connectionsTo == g0[a].outgoing
    requires forall a :: a in ns && a != c.connectedTo ==> a.connectionsFrom == g0[a].sources
    ensures Link(g0, src, c).Keys == ns
    ensures forall a :: a in ns ==> a.connectionsTo == Link(g0, src, c)[a].outgoing && a.connectionsFrom == Link(g0, src, c)[a].sources
  {
    forall a | a in ns
      ensures a.connectionsTo == Link(g0, src, c)[a].outgoing && a.connectionsFrom == Link(g0, src, c)[a].sources
    {
      LinkAt(g0, src, c, a, a);
    }
  }

  /** After remove_connection has changed the two lists Unlink changes, the neurons are still consistent. */
  lemma ConsistentAfterUnlink(ns: set<Neuron>, g0: Graph, src: Neuron, dst: Neuron)
    requires Bookkept(g0) && g0.Keys == ns && src in ns && dst in ns
    requires src in g0[dst].sources
    requires src.connectionsTo == Without(g0[src].outgoing, dst)
    requires dst.connectionsFrom == RemoveFirst(g0[dst].sources, src)
    requires forall a :: a in ns && a != src ==> a.connectionsTo == g0[a].outgoing
    requires forall a :: a in ns && a != dst ==> a.connectionsFrom == g0[a].sources
    ensures Consistent(ns) && Snapshot(ns) == Unlink(g0, src, dst)
  {
    UnlinkKeepsBookkept(g0, src, dst);
    UnlinkedLists(ns, g0, src, dst);
    ConsistentFrom(ns, Unlink(g0, src, dst));
  }

  /** The neurons' lists are those of Unlink. */
  lemma UnlinkedLists(ns: set<Neuron>, g0: Graph, src: Neuron, dst: Neuron)
    requires g0.Keys == ns && src in ns && dst in ns
    requires src.connectionsTo == Without(g0[src].outgoing, dst)
    requires dst.connectionsFrom == RemoveFirst(g0[dst].sources, src)
    requires forall a :: a in ns && a != src ==> a.connectionsTo == g0[a].outgoing
    requires forall a :: a in ns && a != dst ==> a.connectionsFrom == g0[a].sources
    ensures Unlink(g0, src, dst).Keys == ns
    ensures forall a :: a in ns ==> a.connectionsTo == Unlink(g0, src, dst)[a].outgoing && a.connectionsFrom == Unlink(g0, src, dst)[a].sources
  {
    forall a | a in ns
      ensures a.connectionsTo == Unlink(g0, src, dst)[a].outgoing && a.connectionsFrom == Unlink(g0, src, dst)[a].sources
    {
      UnlinkAt(g0, src, dst, a);
    }
  }
}
