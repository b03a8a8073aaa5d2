/**
 * Tunable constants of the simulation (settings.py), inlined as reals.
 * Python evaluates `0.6 * V_MAX` and `R1 * C1` in floating point; here the
 * products are exact.
 */
module Settings {
  /** Radius of a neuron's circle, used for hit testing. */
  const NeuronRadius: real := 10.0
  /** Magnitude of one sensor stimulus step. */
  const ActionPotential: real := 4.0
  /** Ceiling the membrane voltage approaches while stimulated. */
  const VMax: real := 5.0
  /** Voltage at or above which a resting neuron fires. */
  const VThreshold: real := 0.6 * VMax
  /** Resistance and capacitance of the RC membrane; their product is the time constant. */
  const R1: real := 10.0
  const C1: real := 0.1
  /** Number of segments a connection is drawn with; a signal completes after travelling this far. */
  const ConnectionSegments: real := 20.0
  /** Depth parameters of the parallax effect. */
  const FocusDepth: real := 20.0
  const MaxDepth: real := 30.0
  const ParallaxScale: real := 0.2
}
