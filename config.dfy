/**
 * The configuration vocabulary of src/config.rs: the three enumerations a
 * configuration file names by lower-case string, their conversions to and
 * from those strings, the built-in colour ramp, and the two overrides the
 * command line applies to a loaded configuration.
 */
module Config {
  import opened Wrappers
  import opened Colors
  import opened ColorRamps
  import opened Shading

  // ---------------------------------------------------------------------
  // Generator

  datatype Generator = Diamond | Fractal | Midpoint

  /** `Generator::VARIANTS`, in declaration order. */
  const GENERATOR_VARIANTS: seq<string> := ["diamond", "fractal", "midpoint"]

  /** `<&str>::from(generator)`: the variant's entry of `VARIANTS`. */
  function GeneratorName(g: Generator): (s: string)
    ensures s in GENERATOR_VARIANTS
  {
    match g
    case Diamond => GENERATOR_VARIANTS[0]
    case Fractal => GENERATOR_VARIANTS[1]
    case Midpoint => GENERATOR_VARIANTS[2]
  }

  /** `Generator::from_str`: exactly the three names are accepted, each naming the generator it came from. */
  function GeneratorFromStr(s: string): (r: Result<Generator, string>)
    ensures r.Ok? <==> s in GENERATOR_VARIANTS
    ensures r.Ok? ==> GeneratorName(r.value) == s
    ensures r.Err? ==> r.error == "Cannot convert " + s + " to Generator"
  {
    if s == "diamond" then Ok(Diamond)
    else if s == "fractal" then Ok(Fractal)
    else if s == "midpoint" then Ok(Midpoint)
    else Err("Cannot convert " + s + " to Generator")
  }

  /** Serializing a generator and reading the string back gives the same generator. */
  lemma GeneratorRoundTrip(g: Generator)
    ensures GeneratorFromStr(GeneratorName(g)) == Ok(g)
  {
    var r := GeneratorFromStr(GeneratorName(g));
    assert r.Ok?;
    assert GeneratorName(r.value) == GeneratorName(g);
  }

  // ---------------------------------------------------------------------
  // Interpolation

  datatype Interpolation = Linear | Cubic | Quintic | Cosine

  /** `Interpolation::VARIANTS`, in declaration order. */
  const INTERPOLATION_VARIANTS: seq<string> := ["linear", "cubic", "quintic", "cosine"]

  /** `<&str>::from(interpolation)`: the variant's entry of `VARIANTS`. */
  function InterpolationName(i: Interpolation): (s: string)
    ensures s in INTERPOLATION_VARIANTS
  {
    match i
    case Linear => INTERPOLATION_VARIANTS[0]
    case Cubic => INTERPOLATION_VARIANTS[1]
    case Quintic => INTERPOLATION_VARIANTS[2]
    case Cosine => INTERPOLATION_VARIANTS[3]
  }

  /** `Interpolation::from_str`: exactly the four names are accepted. */
  function InterpolationFromStr(s: string): (r: Result<Interpolation, string>)
    ensures r.Ok? <==> s in INTERPOLATION_VARIANTS
    ensures r.Ok? ==> InterpolationName(r.value) == s
    ensures r.Err? ==> r.error == "Cannot convert " + s + " to Interpolation"
  {
    if s == "linear" then Ok(Linear)
    else if s == "cubic" then Ok(Cubic)
    else if s == "quintic" then Ok(Quintic)
    else if s == "cosine" then Ok(Cosine)
    else Err("Cannot convert " + s + " to Interpolation")
  }

  lemma InterpolationRoundTrip(i: Interpolation)
    ensures InterpolationFromStr(InterpolationName(i)) == Ok(i)
  {
    var r := InterpolationFromStr(InterpolationName(i));
    assert r.Ok?;
    assert InterpolationName(r.value) == InterpolationName(i);
  }

  // ---------------------------------------------------------------------
  // Noise

  datatype Noise = Value | Gradient | Simplex

  /** `Noise::VARIANTS`, in declaration order. */
  const NOISE_VARIANTS: seq<string> := ["value", "gradient", "simplex"]

  /** `<&str>::from(noise)`: the variant's entry of `VARIANTS`. */
  function NoiseName(n: Noise): (s: string)
    ensures s in NOISE_VARIANTS
  {
    match n
    case Value => NOISE_VARIANTS[0]
    case Gradient => NOISE_VARIANTS[1]
    case Simplex => NOISE_VARIANTS[2]
  }

  /** `Noise::from_str`: exactly the three names are accepted. */
  function NoiseFromStr(s: string): (r: Result<Noise, string>)
    ensures r.Ok? <==> s in NOISE_VARIANTS
    ensures r.Ok? ==> NoiseName(r.value) == s
    ensures r.Err? ==> r.error == "Cannot convert " + s + " to Noise"
  {
    if s == "value" then Ok(Value)
    else if s == "gradient" then Ok(Gradient)
    else if s == "simplex" then Ok(Simplex)
    else Err("Cannot convert " + s + " to Noise")
  }

  lemma NoiseRoundTrip(n: Noise)
    ensures NoiseFromStr(NoiseName(n)) == Ok(n)
  {
    var r := NoiseFromStr(NoiseName(n));
    assert r.Ok?;
    assert NoiseName(r.value) == NoiseName(n);
  }

  // ---------------------------------------------------------------------
  // Defaults

  const DEFAULT_OUTPUT: string := "out.png"
  const DEFAULT_LIGHT_POSITION: Vec3 := Vec3(-1.0, -1.0, 0.0)
  const DEFAULT_LIGHT: Color := Color([0xFF, 0xFF, 0xCC])
  const DEFAULT_DARK: Color := Color([0x33, 0x11, 0x33])

  /** The steps of the built-in ramp, from deep water at 0 to snow at 1. */
  const DEFAULT_STEPS: seq<ColorStep> := [
    ColorStep(0.000, Color([2, 43, 68])),
    ColorStep(0.250, Color([9, 62, 92])),
    ColorStep(0.490, Color([17, 82, 112])),
    ColorStep(0.500, Color([69, 108, 118])),
    ColorStep(0.510, Color([42, 102, 41])),
    ColorStep(0.750, Color([115, 128, 77])),
    ColorStep(0.850, Color([153, 143, 92])),
    ColorStep(0.950, Color([179, 179, 179])),
    ColorStep(1.000, Color([255, 255, 255]))
  ]

  /** The built-in ramp has nine steps at distinct ascending heights, spanning [0, 1]. */
  lemma DefaultStepsShape()
    ensures |DEFAULT_STEPS| == 9
    ensures StrictlyAscending(DEFAULT_STEPS)
    ensures DEFAULT_STEPS[0].value == 0.0 && DEFAULT_STEPS[8].value == 1.0
  {
    forall i, j | 0 <= i < j < |DEFAULT_STEPS|
      ensures DEFAULT_STEPS[i].value < DEFAULT_STEPS[j].value
    {
      assert forall k :: 0 <= k < 8 ==> DEFAULT_STEPS[k].value < DEFAULT_STEPS[k + 1].value;
      StepsChain(DEFAULT_STEPS, i, j);
    }
  }

  /** Heights that rise from each step to the next rise from any step to any later one. */
  lemma {:induction false} StepsChain(steps: seq<ColorStep>, i: nat, j: nat)
    requires i < j < |steps|
    requires forall k :: 0 <= k < |steps| - 1 ==> steps[k].value < steps[k + 1].value
    ensures steps[i].value < steps[j].value
    decreases j - i
  {
    if i + 1 < j {
      StepsChain(steps, i + 1, j);
    }
  }

  /** `add_step` of a height above every step already there: the step is appended. */
  method AddStepAbove(ramp: ColorRamp, step: real, color: Color)
    requires forall i :: 0 <= i < |ramp.steps| ==> ramp.steps[i].value < step
    modifies ramp
    ensures ramp.steps == old(ramp.steps) + [ColorStep(step, color)]
  {
    InsertedAbove(ramp.steps, ColorStep(step, color));
    ramp.AddStep(step, color);
  }

  /**
   * `default_ramp()`: nine `add_step` calls in ascending order of height,
   * each of which lands at the end, so the ramp holds the steps as listed.
   */
  method DefaultRamp() returns (ramp: ColorRamp)
    ensures fresh(ramp) && ramp.steps == DEFAULT_STEPS
  {
    ramp := new ColorRamp();
    AddStepAbove(ramp, 0.000, New([2, 43, 68]));
    AddStepAbove(ramp, 0.250, New([9, 62, 92]));
    AddStepAbove(ramp, 0.490, New([17, 82, 112]));
    AddStepAbove(ramp, 0.500, New([69, 108, 118]));
    AddStepAbove(ramp, 0.510, New([42, 102, 41]));
    AddStepAbove(ramp, 0.750, New([115, 128, 77]));
    AddStepAbove(ramp, 0.850, New([153, 143, 92]));
    AddStepAbove(ramp, 0.950, New([179, 179, 179]));
    AddStepAbove(ramp, 1.000, New([255, 255, 255]));
  }

  // ---------------------------------------------------------------------
  // The configuration record

  /**
   * `MapGeneratorConfig`. The builder-style setters take the record by
   * value and hand back the updated one, so the record is a value here.
   */
  datatype MapGeneratorConfig = MapGeneratorConfig(
    generator: Generator,
    noise: Option<Noise>,
    scale: Option<real>,
    octave: Option<nat>,
    lacunarity: Option<real>,
    persistance: Option<real>,
    interpolation: Option<Interpolation>,
    ramp: ColorRamp,
    lightPosition: Vec3,
    light: Color,
    dark: Color,
    output: string,
    seed: nat)

  /** `set_output(output)`: `Some(o)` replaces the output path, `None` changes nothing; no other field changes. */
  function SetOutput(c: MapGeneratorConfig, output: Option<string>): (r: MapGeneratorConfig)
    ensures output.Some? ==> r.output == output.value
    ensures output.None? ==> r == c
    ensures r.(output := c.output) == c
  {
    if output.Some? then c.(output := output.value) else c
  }

  /** `set_seed(seed)`: `Some(s)` replaces the seed, `None` changes nothing; no other field changes. */
  function SetSeed(c: MapGeneratorConfig, seed: Option<nat>): (r: MapGeneratorConfig)
    ensures seed.Some? ==> r.seed == seed.value
    ensures seed.None? ==> r == c
    ensures r.(seed := c.seed) == c
  {
    if seed.Some? then c.(seed := seed.value) else c
  }
}
