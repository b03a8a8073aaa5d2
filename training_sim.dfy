/**
 * The hover-rocket training game of training_sim.py: a rocket that falls
 * under gravity, can thrust upwards, is kept inside the play area, and
 * reports its height as a percentage reading; plus the encoding of that
 * reading and the velocity as three membrane-potential increments.
 *
 * Screen coordinates grow downwards, so a positive reading means the
 * rocket sits below the centre line and a positive velocity that it falls.
 */
module Training {
  import opened Settings

  /** Size of the rocket in pixels. */
  const RocketWidth: int := 5
  const RocketHeight: int := 15
  /** Velocity added per tick by gravity (scaled by the time scale) and by thrust (not scaled). */
  const Gravity: real := 0.05
  const Thrust: real := -0.1
  /** Velocity limits, derived from the thrust as in the source. */
  const MinVel: real := Thrust * 10.0
  const MaxVel: real := Thrust * -10.0

  // ---------------------------------------------------------------------------
  // Numeric pieces of one update.
  // ---------------------------------------------------------------------------

  /** Python's int() on a float: the integer part, rounding toward zero. */
  function TruncateTowardZero(r: real): (n: int)
    ensures 0.0 <= r ==> n as real <= r < n as real + 1.0
    ensures r < 0.0 ==> n as real - 1.0 < r <= n as real
  {
    if r >= 0.0 then r.Floor else -((-r).Floor)
  }

  /** Unlike the floor, truncation is symmetric about zero. */
  lemma TruncateOdd(r: real)
    ensures TruncateTowardZero(-r) == -TruncateTowardZero(r)
  {
    var n, m := TruncateTowardZero(r), TruncateTowardZero(-r);
    if r > 0.0 {
      assert -m as real <= r < -m as real + 1.0;
    } else if r < 0.0 {
      assert n as real - 1.0 < r <= n as real;
      assert -n as real <= -r < -n as real + 1.0;
    }
  }

  /** A reading strictly between -100 and 100 truncates into [-99, 99]. */
  lemma TruncateWithinPercent(r: real)
    requires -100.0 < r < 100.0
    ensures -99 <= TruncateTowardZero(r) <= 99
  {
  }

  /** Velocity after gravity and, when thrusting, the thrust, before clamping. */
  function Accelerated(velocity: real, timeScale: real, isThrusting: bool): (r: real)
    ensures isThrusting ==> r < velocity + Gravity * timeScale
    ensures !isThrusting && timeScale >= 0.0 ==> r >= velocity
  {
    velocity + Gravity * timeScale + (if isThrusting then Thrust else 0.0)
  }

  /** Thrust adds the same fixed amount whatever the time scale; gravity scales with it. */
  lemma ThrustNotScaled(velocity: real, timeScale: real)
    ensures Accelerated(velocity, timeScale, true) - Accelerated(velocity, timeScale, false) == Thrust
    ensures Accelerated(velocity, timeScale, false) - velocity == Gravity * timeScale
  {
  }

  /** max(MIN_VEL, min(v, MAX_VEL)). */
  function ClampVelocity(v: real): (r: real)
    ensures MinVel <= r <= MaxVel
    ensures MinVel <= v <= MaxVel ==> r == v
    ensures v < MinVel ==> r == MinVel
    ensures v > MaxVel ==> r == MaxVel
  {
    var below := if v < MaxVel then v else MaxVel;
    if MinVel > below then MinVel else below
  }

  /** The tentative position hits the top or the bottom of the play area. */
  predicate HitsEdge(newY: real, height: int) {
    newY <= 0.0 || newY >= (height - RocketHeight) as real
  }

  /** max(0, min(newY, HEIGHT - rocket_height)). */
  function ClampPosition(newY: real, height: int): (r: real)
    ensures 0.0 <= r
    ensures height >= RocketHeight ==> r <= (height - RocketHeight) as real
    ensures height < RocketHeight ==> r == 0.0
    ensures 0.0 <= newY <= (height - RocketHeight) as real ==> r == newY
    ensures newY <= 0.0 ==> r == 0.0
    ensures height >= RocketHeight && newY >= (height - RocketHeight) as real ==> r == (height - RocketHeight) as real
  {
    var below := if newY < (height - RocketHeight) as real then newY else (height - RocketHeight) as real;
    if 0.0 > below then 0.0 else below
  }

  /**
   * The position reading: how far the rocket's centre is from the centre
   * line, as a percentage of half the height, truncated toward zero.
   */
  function PositionReading(rocketY: real, height: int): (r: int)
    requires height != 0
    ensures height > 0 && r > 0 ==> rocketY + RocketHeight as real / 2.0 > height as real / 2.0
    ensures height > 0 && r < 0 ==> rocketY + RocketHeight as real / 2.0 < height as real / 2.0
    ensures rocketY + RocketHeight as real / 2.0 == height as real / 2.0 ==> r == 0
  {
    var half := height as real / 2.0;
    TruncateTowardZero((rocketY + RocketHeight as real / 2.0 - half) / half * 100.0)
  }

  /** A rocket inside a play area at least as tall as itself reads within [-99, 99]. */
  lemma ReadingWithinPercent(rocketY: real, height: int)
    requires height >= RocketHeight
    requires 0.0 <= rocketY <= (height - RocketHeight) as real
    ensures -99 <= PositionReading(rocketY, height) <= 99
  {
    var half := height as real / 2.0;
    var offset := rocketY + RocketHeight as real / 2.0 - half;
    assert -half < offset < half;
    RatioWithinOne(offset, half);
    TruncateWithinPercent(offset / half * 100.0);
  }

  /** An offset smaller than `half` in size is less than one `half`. */
  lemma RatioWithinOne(offset: real, half: real)
    requires half > 0.0 && -half < offset < half
    ensures -1.0 < offset / half < 1.0
  {
    assert offset / half * half == offset;
  }

  /** The reading is zero exactly when the scaled offset lies strictly between -1 and 1. */
  lemma TruncateZero(r: real)
    ensures TruncateTowardZero(r) == 0 <==> -1.0 < r < 1.0
  {
  }

  /** Position after moving with velocity `v` for one tick at the given time scale. */
  function Moved(y: real, v: real, timeScale: real): real {
    y + v * timeScale
  }

  /** The rocket's vertical position and velocity. */
  datatype Motion = Motion(y: real, velocity: real)

  /**
   * The motion after one tick: the clamped velocity moves the rocket by
   * velocity * timeScale; a rocket that reaches the top or the bottom stops
   * there.
   */
  function Step(m: Motion, timeScale: real, isThrusting: bool, height: int): (r: Motion)
    ensures MinVel <= r.velocity <= MaxVel
    ensures 0.0 <= r.y
    ensures height >= RocketHeight ==> r.y <= (height - RocketHeight) as real
    ensures height < RocketHeight ==> r.y == 0.0
    ensures HitsEdge(r.y, height) ==> r.velocity == 0.0
    ensures var newY := Moved(m.y, ClampVelocity(Accelerated(m.velocity, timeScale, isThrusting)), timeScale);
      HitsEdge(newY, height) ==> r == Motion(ClampPosition(newY, height), 0.0)
    ensures !HitsEdge(Moved(m.y, ClampVelocity(Accelerated(m.velocity, timeScale, isThrusting)), timeScale), height) ==>
      !HitsEdge(r.y, height)
    ensures !HitsEdge(r.y, height) ==>
      r.velocity == ClampVelocity(Accelerated(m.velocity, timeScale, isThrusting)) && r.y == Moved(m.y, r.velocity, timeScale)
  {
    var v := ClampVelocity(Accelerated(m.velocity, timeScale, isThrusting));
    var newY := Moved(m.y, v, timeScale);
    if HitsEdge(newY, height) then Motion(ClampPosition(newY, height), 0.0) else Motion(newY, v)
  }

  // ---------------------------------------------------------------------------
  // The game object.
  // ---------------------------------------------------------------------------

  class TrainingSim {
    const width: int
    const height: int
    const rocketX: int
    var rocketY: real
    var velocity: real
    var positionData: int
    var timeScale: real

    /** The reading agrees with the rocket's position (whenever the height allows a reading). */
    predicate Calibrated()
      reads this
    {
      height != 0 ==> positionData == PositionReading(rocketY, height)
    }

    /**
     * A rocket centred horizontally, at half the height, at rest, with time
     * scale 1. The initial reading is the one for that position; see
     * InitialReadingAsWritten for what the source stores instead.
     */
    constructor (width: int, height: int)
      ensures this.width == width && this.height == height
      ensures rocketX == width / 2 - RocketWidth / 2
      ensures rocketY == (height / 2) as real
      ensures velocity == 0.0 && timeScale == 1.0
      ensures Calibrated()
    {
      this.width := width;
      this.height := height;
      rocketX := width / 2 - RocketWidth / 2;
      rocketY := (height / 2) as real;
      velocity := 0.0;
      timeScale := 1.0;
      new;
      positionData := if height == 0 then 0 else PositionReading(rocketY, height);
    }

    /**
     * One tick: gravity scaled by the time scale, thrust if requested, the
     * velocity clamped to [MinVel, MaxVel], the position advanced by the
     * scaled velocity, and, on touching the top or the bottom, the velocity
     * zeroed and the position clamped into the play area; then the reading.
     * The height must not be zero (the reading divides by it).
     */
    method Update(isThrusting: bool)
      requires height != 0
      modifies this`velocity, this`rocketY, this`positionData
      ensures Motion(rocketY, velocity) == Step(old(Motion(rocketY, velocity)), timeScale, isThrusting, height)
      ensures Calibrated()
    {
      velocity := velocity + Gravity * timeScale;
      if isThrusting {
        velocity := velocity + Thrust;
      }
      velocity := ClampVelocity(velocity);
      var newY := Moved(rocketY, velocity, timeScale);
      if HitsEdge(newY, height) {
        velocity := 0.0;
        newY := ClampPosition(newY, height);
      }
      rocketY := newY;
      positionData := PositionReading(rocketY, height);
    }

    method SetTimeScale(scale: real)
      modifies this`timeScale
      ensures timeScale == scale
    {
      timeScale := scale;
    }
  }

  /**
   * What the source's constructor stores as the first reading: the rocket's
   * pixel row itself rather than a percentage.
   */
  function InitialReadingAsWritten(height: int): (r: int)
    ensures height >= 200 ==> r >= 100
  {
    height / 2
  }

  /**
   * From a play area of 200 pixels up, the stored first reading exceeds
   * every reading an in-bounds rocket can produce.
   */
  lemma InitialReadingOutOfRange(height: int)
    requires height >= 200
    ensures forall y :: 0.0 <= y <= (height - RocketHeight) as real ==>
      InitialReadingAsWritten(height) > PositionReading(y, height)
  {
    forall y | 0.0 <= y <= (height - RocketHeight) as real
      ensures InitialReadingAsWritten(height) > PositionReading(y, height)
    {
      ReadingWithinPercent(y, height);
    }
  }

  /**
   * With the game's 200-pixel play area, the stored first reading is 100
   * (a rocket at the very bottom) although the rocket hangs near the centre,
   * where the reading is 7; encoded, it is a full action potential of
   * "too low" instead of 0.28.
   */
  lemma InitialReadingStale()
    ensures InitialReadingAsWritten(200) == 100
    ensures PositionReading((200 / 2) as real, 200) == 7
    ensures ConvertGameOutput(InitialReadingAsWritten(200) as real, 0.0).positionLow == ActionPotential
    ensures ConvertGameOutput(PositionReading((200 / 2) as real, 200) as real, 0.0).positionLow == 0.28
  {
    assert (100.0 + 7.5 - 100.0) / 100.0 * 100.0 == 7.5;
  }

  // ---------------------------------------------------------------------------
  // Sensor encoding.
  // ---------------------------------------------------------------------------

  /** Three membrane-potential increments: position too low, position too high, and velocity. */
  datatype Stimulus = Stimulus(positionLow: real, positionHigh: real, velocityInput: real)

  /**
   * convert_game_output_to_neuron_input. A positive reading (rocket below
   * the centre line) drives only the "too low" input and a negative one
   * only the "too high" input, each by reading/100 action potentials; the
   * velocity range [-3, 3] maps linearly onto [0, ActionPotential].
   */
  function ConvertGameOutput(position: real, velocity: real): (r: Stimulus)
    ensures r.positionLow >= 0.0 && r.positionHigh >= 0.0
    ensures r.positionLow == 0.0 || r.positionHigh == 0.0
    ensures r.positionLow > 0.0 <==> position > 0.0
    ensures r.positionHigh > 0.0 <==> position < 0.0
    ensures r.positionLow - r.positionHigh == position / 100.0 * ActionPotential
    ensures -3.0 <= velocity <= 3.0 ==> 0.0 <= r.velocityInput <= ActionPotential
  {
    var tooLow := if position / 100.0 > 0.0 then position / 100.0 else 0.0;
    var tooHigh := if -position / 100.0 > 0.0 then -position / 100.0 else 0.0;
    var normalizedVelocity := (velocity + 3.0) / 6.0;
    Stimulus(tooLow * ActionPotential, tooHigh * ActionPotential, normalizedVelocity * ActionPotential)
  }

  /** The velocity input grows linearly with the velocity: 2/3 of an action potential per unit. */
  lemma VelocityInputLinear(position: real, v1: real, v2: real)
    ensures ConvertGameOutput(position, v2).velocityInput - ConvertGameOutput(position, v1).velocityInput
      == (v2 - v1) * ActionPotential / 6.0
  {
  }

  /** stimulate_neuron_with_game_output: the same triple as convert_game_output_to_neuron_input. */
  function StimulateNeuronWithGameOutput(position: real, velocity: real): (r: Stimulus)
    ensures r == ConvertGameOutput(position, velocity)
  {
    ConvertGameOutput(position, velocity)
  }

  /** Every reading an in-bounds rocket can produce encodes to position inputs below one action potential. */
  lemma ReadingEncodesBelowActionPotential(rocketY: real, height: int, velocity: real)
    requires height >= RocketHeight
    requires 0.0 <= rocketY <= (height - RocketHeight) as real
    ensures var s := ConvertGameOutput(PositionReading(rocketY, height) as real, velocity);
            s.positionLow < ActionPotential && s.positionHigh < ActionPotential
  {
    ReadingWithinPercent(rocketY, height);
  }
}
