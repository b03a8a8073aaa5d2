# Spiking-neuron sandbox: a Dafny model of its core

The program is a small pygame toy. The user places neurons on a canvas and
wires them together with directed connections. Each tick, every neuron runs
a two-state machine:

- **Resting:** a neuron integrates the stimulation it received, as an RC
  membrane would. Its voltage then decays, its shared outgoing weight
  decays, and it fires once the voltage reaches a threshold.
- **Active:** the neuron animates a signal along each outgoing connection.
  Each signal that arrives reinforces the weight and stimulates its target.
  The neuron rests again once no signal is still travelling.

A side panel runs a hover-rocket game. The rocket's height and velocity
are encoded as membrane-potential increments meant for input neurons.

This project models, in Dafny:

- **`neuron.dfy`, module `Neurons`:**
  - the `Connection` and `Neuron` classes with their structural edits
    (`AddConnection`, `RemoveConnection`, `RemoveAllConnections`);
  - `Fire` and `UpdateNeuron`;
  - the cross-neuron bookkeeping invariant `Consistent`, stated on a value
    snapshot of the graph. The number of times `a` occurs among `b`'s
    sources equals the number of connections of `a` that lead to `b`,
    which is at most one.
- **`training_sim.dfy`, module `Training`:**
  - the `TrainingSim` class: the rocket step, the time scale and the
    position reading;
  - the pure sensor encoding `ConvertGameOutput`.
- **`utilities.dfy`, module `Utilities`:**
  - `Smoothstep`;
  - a `Registry` class holding the module-level neuron list and mouse
    offset, with the hit test, insertion and removal.
- **`lists.dfy`, module `Lists`:** Python's `list.remove` (`RemoveFirst`)
  and the filtering comprehension (`RemoveAll`).
- **`settings.dfy`, module `Settings`:** the constants.

Arithmetic is modelled with exact `real`s. Three inputs become parameters:

- the decay factor `exp(-dt / tau)` becomes `decay`;
- the signal speed (`SIGNAL_PROPAGATION_FACTOR`, which settings.py does not
  define) becomes `propagationFactor`;
- `dt * propagationFactor` becomes `step`.

Where the code and its comments disagree, the model follows the code:

- **training_sim.py:84-85.** The comments describe the opposite sign. In
  the code, a positive reading (rocket below the centre line, because
  screen y grows downwards) drives the "too low" input.
- **neuron.py:73.** The voltage reset in `fire` sits inside the loop over
  connections, so a neuron with no outgoing connection keeps its voltage
  when it fires.

## Model

| member | source | states |
|---|---|---|
| `Lists.RemoveFirst` | neuron.py:60 | `list.remove(x)`: when `x` occurs, the list is the old one with its first occurrence of `x` cut out, the order of the rest kept (so one fewer element and one occurrence fewer); otherwise the list is unchanged |
| `Lists.RemoveAll` | neuron.py:59 | the filtering comprehension: every occurrence of `x` gone, every other element kept with its multiplicity |
| `Lists.RemoveFirstOnce` | neuron.py:58-60 | when removing the first occurrence leaves none, `remove` and the filtering comprehension give the same list |
| `Neurons.Advance` | neuron.py:79-82 | a stopped signal is untouched and an animating one moves by `step`; no signal starts animating again; the signal arrives on this tick (`Completes`) exactly when it was animating and has now stopped |
| `Neurons.PropagateTimesPointwise` | neuron.py:78-86 | `n` active ticks of the whole list move each connection's signal `n` times on its own, independently of the others |
| `Neurons.LaunchedStaysActive` | neuron.py:68-86 | after firing into at least one connection with a positive step, some signal is still animating after `n` active ticks iff `n * step` is below the segment count; this is when the neuron stays active |
| `Neurons.ReinforcementCounts` | neuron.py:81-83 | the weight gained in an active tick is the training factor times the number of signals that arrive |
| `Neurons.LaunchedSignalTiming` | neuron.py:78-86 | a freshly fired signal with a positive step is still animating after `n` ticks iff `n * step` is below the segment count, and its progress is then `n * step` |
| `Neurons.LaunchedSignalArrives` | neuron.py:79-84 | a fired signal arrives on exactly one tick: the `n` with `n * step < segments <= (n + 1) * step` |
| `Neurons.DecayWeightFloor` | neuron.py:98-99 | resting ticks never raise the weight, and a weight starting at or above `0.1 - trainig_factor/100` never falls below that bound |
| `Neurons.DecayWeightSteps` | neuron.py:98-99 | while above the floor the weight drops by exactly `trainig_factor/100` per resting tick, so `n` ticks remove `n` times that |
| `Neurons.DecayWeight` | neuron.py:98-99 | a resting tick never raises the weight (for a non-negative training factor); a weight at or below 0.1 is kept; a weight above 0.1 stays above `0.1 - trainig_factor/100` |
| `Neurons.IntegrateBounds` | neuron.py:93-97 | one resting tick keeps the voltage in `[0, V_MAX]` when the charge fraction is at most one and the decay factor is in `(0, 1]`; without positive stimulation the voltage only decays |
| `Neurons.Without` | neuron.py:59 | the targets of the filtered connection list are the old targets with every occurrence of the removed neuron gone |
| `Neurons.WithoutMembers` | neuron.py:59 | the filter keeps exactly the connections that do not lead to the removed neuron |
| `Neurons.WithoutHead` | neuron.py:63-64 | in a list with distinct targets, filtering out the first target drops just the first connection |
| `Neurons.DistinctTargets` | neuron.py:53-55 | in an owned list, where each target occurs once, the connections lead to pairwise different targets |
| `Neurons.AppendOwned` | neuron.py:53-55 | appending a connection to a neuron not yet reached keeps the list owned by its source, with each target occurring once |
| `Neurons.WithoutOwned` | neuron.py:59 | filtering keeps a list owned |
| `Neurons.Connection.constructor` | neuron.py:9-14 | a new connection joins its two neurons and is not animating, with progress 0; its segment count is the settings constant |
| `Neurons.Neuron.constructor` | neuron.py:17-27 | a new neuron at `(x, y)` has empty lists, is resting with voltage and stimulation 0, and has weight 0.25 |
| `Neurons.Neuron.AddConnection` | neuron.py:52-56 | when a connection to the target already exists, nothing changes, so a second call is idempotent; otherwise one fresh, non-animating connection is appended and the target records this neuron as a source; the list stays owned and the bookkeeping of any consistent set holding both neurons is preserved |
| `Neurons.Neuron.RemoveConnection` | neuron.py:58-60 | requires this neuron among the target's sources, since `list.remove` raises otherwise; drops every connection to the target, removes one occurrence of this neuron from the target's sources, and preserves ownership and the bookkeeping. In a consistent set holding both, the new graph of connections is `Unlink` of the old one: no other neuron's lists change |
| `Neurons.Neuron.RemoveAllConnections` | neuron.py:62-66 | both lists of the neuron end empty and the bookkeeping of the set still holds. Every other neuron of the set loses exactly its links with this one: its connections to it and every record of it as a source, all else kept in order |
| `Neurons.Neuron.RemoveOutgoing` | neuron.py:63-64 | the first loop empties the outgoing list and keeps the bookkeeping. Every other neuron keeps its connections and loses every record of this neuron as a source. This neuron's own sources lose only their records of itself, which a self-connection leaves |
| `Neurons.Neuron.DropTarget` | neuron.py:64 | one iteration drops the first outgoing connection and one back-reference at its target; the graph of connections becomes `Unlink` of the old one for that pair |
| `Neurons.Neuron.RemoveIncoming` | neuron.py:65-66 | the second loop empties the source list and keeps the bookkeeping. Every other neuron keeps its sources and loses its connections to this neuron |
| `Neurons.Neuron.DropSource` | neuron.py:66 | one iteration makes the first source drop its connections to this neuron and removes it from this neuron's sources; the graph of connections becomes `Unlink` of the old one for that pair |
| `Neurons.Neuron.Fire` | neuron.py:68-73 | the neuron becomes active; every outgoing connection is animating with progress 0; the voltage becomes 0 only when there is an outgoing connection |
| `Neurons.Neuron.UpdateNeuron` | neuron.py:75-106 | **Active tick:** the signals become `Propagate` of the old ones; the weight grows by `Reinforcement`; the neuron stays active iff some signal is still animating; the voltage is untouched; each target other than the neuron itself gains 25 times the weight as reinforced up to its own arrival, on the tick its signal arrives. **Resting tick:** the voltage becomes `Integrate`, the weight becomes `DecayWeight`, and the neuron fires iff the new voltage reaches `V_THRESHOLD`. On firing, every signal is launched and the voltage is reset when there is a connection; otherwise the signals are untouched. No other target's stimulation changes. **Either way:** the pending stimulation ends at 0 |
| `Neurons.Neuron.Propagation` | neuron.py:76-89 | the active-branch loop, stated on whole sequences: new signals, the weight gained, the stimulation delivered to each target, and the state going to resting exactly when no signal is left animating. It may change only the connections on the list and their targets, so its own stimulation can change only through a connection to itself |
| `Neurons.Neuron.AdvanceAll` | neuron.py:78-86 | the loop itself: each connection's signal becomes its `Propagate` entry, each target gains its `Delivery`, the weight gains `Reinforcement`, and the returned flag says that no signal is left animating; nothing but those connections, their targets and the weight changes |
| `Neurons.Neuron.Advance1` | neuron.py:79-86 | one loop iteration advances connection `i` only; on arrival it stops, adds the training factor to the weight and gives its target 25 times the new weight; it reports whether the connection has finished |
| `Neurons.Neuron.IsClicked` | neuron.py:45-50 | a neuron is hit at the point where it is drawn, parallax included; a hit point lies less than a radius away horizontally and vertically |
| `Neurons.LinkKeepsBookkept` | neuron.py:52-56 | on the graph value, adding a connection to a neuron not yet reached keeps ownership, closure and the mirrored counts |
| `Neurons.UnlinkKeepsBookkept` | neuron.py:58-60 | on the graph value, removing the links between two neurons keeps the bookkeeping and leaves the two unlinked in both lists |
| `Neurons.ConsistentAfterLink` | neuron.py:52-56 | the heap after `add_connection` is again consistent |
| `Neurons.ConsistentAfterUnlink` | neuron.py:58-60 | the heap after `remove_connection` is again consistent |
| `Neurons.ConsistentTarget` | neuron.py:55-56 | in a consistent set every target lists its source among its sources |
| `Neurons.ConsistentSource` | neuron.py:65-66 | in a consistent set every source of a neuron has a connection to it, so the second removal loop never raises |
| `Neurons.Isolated` | neuron.py:62-66 | in a consistent set, a neuron whose lists are both empty has no connection from, and no back-reference in, any other neuron |
| `Training.TruncateTowardZero` | training_sim.py:52 | Python's `int()` on a float: the integer part, rounding toward zero on both sides |
| `Training.TruncateOdd` | training_sim.py:52 | truncation is symmetric about zero, unlike the floor |
| `Training.TruncateWithinPercent` | training_sim.py:52 | a scaled offset strictly between -100 and 100 truncates to a reading between -99 and 99 |
| `Training.TruncateZero` | training_sim.py:52 | the reading is 0 exactly when the scaled offset lies strictly between -1 and 1 |
| `Training.Accelerated` | training_sim.py:32-36 | thrust makes the velocity smaller (upwards) than gravity alone would; without thrust and with a non-negative time scale the velocity never decreases |
| `Training.ThrustNotScaled` | training_sim.py:32-36 | before clamping, gravity adds `gravity * time_scale`, and thrust adds a further -0.1 that does not scale with the time scale |
| `Training.ClampVelocity` | training_sim.py:24-39 | the clamped velocity lies in `[MIN_VEL, MAX_VEL] = [-1, 1]`, is unchanged inside it, and saturates at the nearer limit outside it |
| `Training.ClampPosition` | training_sim.py:47 | the clamped position is at least 0; it is at most `HEIGHT - rocket_height` when that is non-negative, and 0 otherwise; it is unchanged inside the play area; a position at or above the top goes to 0, and one at or below the bottom goes to `HEIGHT - rocket_height` |
| `Training.Step` | training_sim.py:30-49 | after a tick the velocity lies in `[-1, 1]` and the position in `[0, HEIGHT - rocket_height]`. A rocket at the top or bottom edge has velocity 0. When the tentative position reaches an edge, the rocket stops there: velocity 0 and the tentative position clamped into the play area. When the tentative position reaches neither edge, the rocket is away from the edges; away from the edges, the velocity is the clamped accelerated one and the rocket moved by `velocity * time_scale` |
| `Training.PositionReading` | training_sim.py:52 | with a positive height, a positive reading means the rocket's centre is below the centre line and a negative one that it is above; a centred rocket reads 0 |
| `Training.ReadingWithinPercent` | training_sim.py:52 | a rocket inside a play area at least as tall as itself reads between -99 and 99 |
| `Training.TrainingSim.constructor` | training_sim.py:7-25 | the rocket is centred horizontally at `WIDTH // 2 - 2`, at height `HEIGHT // 2`, at rest, with time scale 1, and its reading agrees with its position (see Findings) |
| `Training.TrainingSim.Update` | training_sim.py:30-52 | the new position and velocity are `Step` of the old ones, and the reading is recomputed from the new position |
| `Training.TrainingSim.SetTimeScale` | training_sim.py:76-77 | the time scale becomes the given value |
| `Training.InitialReadingAsWritten` | training_sim.py:17 | the first `position_data` as the constructor stores it, `HEIGHT // 2`, is at least 100 once the play area is 200 pixels tall |
| `Training.InitialReadingOutOfRange` | training_sim.py:17 | from 200 pixels up, that stored value exceeds every reading an in-bounds rocket can produce |
| `Training.InitialReadingStale` | training_sim.py:17 | with the 200-pixel play area, the stored first reading is 100 although the rocket's reading is 7. Encoded, that is a full action potential of "too low" instead of 0.28 |
| `Training.ConvertGameOutput` | training_sim.py:82-95 | both position inputs are non-negative and at most one is positive. "Too low" is positive iff the reading is positive, and "too high" iff it is negative. Their difference is `position / 100 * ACTION_POTENTIAL`. The velocity input lies in `[0, ACTION_POTENTIAL]` for velocities in `[-3, 3]` |
| `Training.VelocityInputLinear` | training_sim.py:88-93 | the velocity input grows linearly with the velocity, by `ACTION_POTENTIAL / 6` per unit |
| `Training.StimulateNeuronWithGameOutput` | training_sim.py:97-99 | returns exactly the triple the conversion produces |
| `Training.ReadingEncodesBelowActionPotential` | training_sim.py:84-92 | any reading an in-bounds rocket produces encodes to position inputs below one action potential |
| `Utilities.Clamp01` | utilities.py:19 | the clamped fraction lies in `[0, 1]` and is unchanged inside it |
| `Utilities.CubicBounds` | utilities.py:20 | the easing cubic `3t^2 - 2t^3` maps `[0, 1]` into `[0, 1]` |
| `Utilities.Smoothstep` | utilities.py:18-20 | requires distinct edges, since the source divides by their difference; the result lies in `[0, 1]`; with increasing edges it is 0 at or below `edge0` and 1 at or above `edge1` |
| `Utilities.SmoothstepMonotone` | utilities.py:18-20 | with increasing edges, smoothstep never decreases |
| `Utilities.CubicMonotone` | utilities.py:20 | the easing cubic is non-decreasing on `[0, 1]` |
| `Utilities.JoinIsolated` | utilities.py:42-45 | on the graph value, a neuron with no links can join a bookkept graph |
| `Utilities.ConsistentJoin` | utilities.py:42-45 | a fresh neuron with empty lists can join a consistent set |
| `Utilities.LeaveIsolated` | utilities.py:47-49 | on the graph value, a neuron with empty lists can leave a bookkept graph |
| `Utilities.ConsistentLeave` | utilities.py:47-49 | a neuron with empty lists can leave a consistent set |
| `Utilities.IsolatedFromAll` | utilities.py:48 | after its connections are removed, no neuron of the set has a connection to the neuron or lists it as a source |
| `Utilities.ListedAfterRemove` | utilities.py:49 | removing one occurrence of a listed neuron drops it from the set of listed neurons, unless it was listed twice |
| `Utilities.Registry.constructor` | neuron.py:6 | the neuron list starts empty, and the empty set is consistent |
| `Utilities.Registry.NeuronAtPos` | utilities.py:36-40 | returns the first neuron in list order whose circle contains the point, and None iff no neuron's does |
| `Utilities.Registry.AddNeuron` | utilities.py:42-45 | appends exactly one fresh neuron and keeps the existing entries. The new neuron is placed at the point minus the current parallax offset, with the given type tag and empty lists, resting, with voltage and stimulation 0 and weight 0.25. Consistency is preserved |
| `Utilities.Registry.RemoveNeuron` | utilities.py:47-49 | requires the neuron to be listed, since `list.remove` raises otherwise. Afterwards the list is the old one without the neuron's first occurrence. The neuron's lists are empty. Every other listed neuron loses exactly its links with it: its connections to it and every record of it as a source, all else kept in order. Consistency is preserved |

## Left out

- **Drawing:**
  - `Neuron.draw`, `draw_connections` and `TrainingSim.draw`;
  - the rope physics (`Point`, `create_rope`, `update_rope`, `draw_rope`);
  - particles, sprite generation and the UI widgets.
  These are rendering and decoration, with randomness, images and square
  roots.
- **The main loop (main.py):** it reads `is_firing`, `membrane_potential`
  and `neuron_type`, which the `Neuron` class does not define. Its mouse
  hover and the per-tick coupling with the game are therefore not modelled.
- **`update_mouse_offset` and `initial_setup`:** window set-up and pygame
  vector easing. `Registry.mouseOffset` holds their result.
- **`create_training_sim`:** it only calls the `TrainingSim` constructor.
- **The `is_thrusting` global (training_sim.py:4):** it is never read by
  the modelled code.
- **Floating point:** IEEE rounding is not modelled.
  - Integers and floats are both `real`, including the initial integer
    position and velocity.
  - `math.exp` is the parameter `decay`.
  - The unset `SIGNAL_PROPAGATION_FACTOR` is the parameter
    `propagationFactor`.
- **`add_neuron`'s `neuron_type`:** the source passes it to a constructor
  that takes only `x` and `y`. The model gives `Neuron` a `kind` tag
  instead of reproducing the resulting `TypeError`.
- **Neurons.Neuron.RemoveAllConnections:** it requires a consistent set
  rather than the weaker condition under which no `list.remove` raises;
  `RemoveOutgoing` and `RemoveIncoming` do the same.
- **Neurons.Neuron.UpdateNeuron:**
  - It requires an owned outgoing list, with one connection per target,
    which `add_connection` maintains. Lists built otherwise are not covered.
  - It says nothing about the stimulation a neuron delivers to itself
    through a self-connection: the final reset overwrites it.
- **Neurons.Neuron.AddConnection:** it requires an owned outgoing list,
  as `UpdateNeuron` does.
- **Neurons.Neuron.RemoveConnection:** it requires an owned outgoing list,
  as `UpdateNeuron` does.
- **Utilities.Registry.RemoveNeuron:** it requires the listed neurons to be
  consistent. `AddNeuron` and `RemoveNeuron` keep that invariant.
- **Utilities.Smoothstep:** it requires distinct edges, because
  utilities.py:19 divides by `edge1 - edge0` and Python raises
  `ZeroDivisionError` when they are equal.
- **Training.TrainingSim.Update:** it requires a non-zero height, because
  the reading divides by half the height and Python raises
  `ZeroDivisionError` there.

## Findings

| source | as written | input that shows it | evidently intended | confidence | as-written member | corrected member |
|---|---|---|---|---|---|---|
| training_sim.py:17 | The first `position_data` is `rocket_y`, the pixel row `HEIGHT // 2`. Every `update` stores a percentage reading instead. | `TrainingSim(200, 200)`: before the first update `position_data` is 100, which reads as a rocket at the very bottom. The rocket's actual reading is 7. | `position_data` starts as the reading of the initial position. | medium, not executed | `Training.InitialReadingStale` | `Training.TrainingSim.constructor` |
