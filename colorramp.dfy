/**
 * `ColorRamp` of image/src/color_ramp.rs: a list of (height, colour) steps
 * kept in ascending order by `add_step`, looked up by linear blending
 * between the two steps around a height, and painted over a heightmap.
 *
 * Ascending order is not an invariant of the class: a ramp read from a
 * configuration file is taken in the order written. `InsertedAscending`
 * says that `add_step` keeps an ascending ramp ascending.
 */
module ColorRamps {
  import opened Numeric
  import opened Wrappers
  import opened Grid
  import opened Colors
  import opened Heightmaps
  import opened Images

  /** `ColorStep`: the colour painted at height `value`. */
  datatype ColorStep = ColorStep(value: real, color: Color)

  predicate Ascending(steps: seq<ColorStep>) {
    forall i, j :: 0 <= i < j < |steps| ==> steps[i].value <= steps[j].value
  }

  predicate StrictlyAscending(steps: seq<ColorStep>) {
    forall i, j :: 0 <= i < j < |steps| ==> steps[i].value < steps[j].value
  }

  /** `iter().position(|x| x.value >= v)`: the first step at or above `v`, if any. */
  function Position(steps: seq<ColorStep>, v: real): (r: Option<nat>)
    ensures r.Some? ==> r.value < |steps| && v <= steps[r.value].value
    ensures r.Some? ==> forall i :: 0 <= i < r.value ==> steps[i].value < v
    ensures r.None? ==> forall i :: 0 <= i < |steps| ==> steps[i].value < v
  {
    if |steps| == 0 then None
    else if steps[0].value >= v then Some(0)
    else match Position(steps[1..], v)
      case None => None
      case Some(i) => Some(i + 1)
  }

  /** Where `add_step` puts a step of height `v`: in front of the first step at or above it, else at the end. */
  function Slot(steps: seq<ColorStep>, v: real): (k: nat)
    ensures k <= |steps|
    ensures forall i :: 0 <= i < k ==> steps[i].value < v
    ensures k < |steps| ==> v <= steps[k].value
    ensures forall i :: 0 <= i < |steps| && v <= steps[i].value ==> k <= i
  {
    match Position(steps, v)
    case Some(i) => i
    case None => |steps|
  }

  /**
   * The steps after `add_step(s)`: one step longer, the old steps in their
   * old order, and `s` in front of every old step at or above it.
   */
  function Inserted(steps: seq<ColorStep>, s: ColorStep): (r: seq<ColorStep>)
    ensures |r| == |steps| + 1
    ensures r[Slot(steps, s.value)] == s
    ensures forall i :: 0 <= i < Slot(steps, s.value) ==> r[i] == steps[i]
    ensures forall i :: Slot(steps, s.value) <= i < |steps| ==> r[i + 1] == steps[i]
    ensures multiset(r) == multiset(steps) + multiset{s}
  {
    var k := Slot(steps, s.value);
    assert steps == steps[..k] + steps[k..];
    steps[..k] + [s] + steps[k..]
  }

  /** `add_step` keeps an ascending ramp ascending. */
  lemma InsertedAscending(steps: seq<ColorStep>, s: ColorStep)
    requires Ascending(steps)
    ensures Ascending(Inserted(steps, s))
  {
    var r := Inserted(steps, s);
    var k := Slot(steps, s.value);
    forall i, j | 0 <= i < j < |r|
      ensures r[i].value <= r[j].value
    {
      if j < k {
        assert r[i] == steps[i] && r[j] == steps[j];
      } else if j == k {
        assert r[i] == steps[i];
      } else if i < k {
        assert r[i] == steps[i] && r[j] == steps[j - 1];
      } else if i == k {
        assert r[j] == steps[j - 1];
        assert k < |steps| && s.value <= steps[k].value;
      } else {
        assert r[i] == steps[i - 1] && r[j] == steps[j - 1];
      }
    }
  }

  /** Adding a step above every existing step appends it. */
  lemma InsertedAbove(steps: seq<ColorStep>, s: ColorStep)
    requires forall i :: 0 <= i < |steps| ==> steps[i].value < s.value
    ensures Inserted(steps, s) == steps + [s]
  {
    var k := Slot(steps, s.value);
    if k < |steps| {
      assert false;
    }
    assert steps[..k] == steps;
  }

  /**
   * The blend weight of the interpolating branch of `get`: with the lower
   * step strictly below `pos` and the upper step at or above it, the divisor
   * is positive and the weight lies in (0, 1], reaching 1 exactly at the
   * upper step.
   */
  function Weight(lo: real, hi: real, pos: real): (t: real)
    requires lo < pos <= hi
    ensures 0.0 < t <= 1.0
    ensures t == 1.0 <==> pos == hi
  {
    WeightRange(lo, hi, pos);
    (pos - lo) / (hi - lo)
  }

  lemma WeightRange(lo: real, hi: real, pos: real)
    requires lo < pos <= hi
    ensures 0.0 < (pos - lo) / (hi - lo) <= 1.0
    ensures (pos - lo) / (hi - lo) == 1.0 <==> pos == hi
  {
    var n, d := pos - lo, hi - lo;
    var t := n / d;
    assert t * d == n;
    Cancel(t, 1.0, d);
    Cancel(0.0, t, d);
  }

  class ColorRamp {
    var steps: seq<ColorStep>

    /** `ColorRamp::new`: no steps. */
    constructor()
      ensures steps == []
    {
      steps := [];
    }

    /** `add_step(step, color)`: insert in front of the first step at or above `step`, else push. */
    method AddStep(step: real, color: Color)
      modifies this
      ensures steps == Inserted(old(steps), ColorStep(step, color))
    {
      var s := ColorStep(step, color);
      match Position(steps, s.value)
      case Some(i) =>
        steps := steps[..i] + [s] + steps[i..];
      case None =>
        steps := steps + [s];
    }

    /**
     * `get(pos)`: the first colour at or below the first step, the last
     * colour above every step, and otherwise the blend of the two steps
     * around `pos`. An empty ramp panics on `last().unwrap()`.
     */
    function Get(pos: real): (c: Color)
      reads this
      requires |steps| > 0
      ensures pos <= steps[0].value ==> c == steps[0].color
      ensures (forall i :: 0 <= i < |steps| ==> steps[i].value < pos) ==> c == steps[|steps| - 1].color
      ensures forall k :: Position(steps, pos) == Some(k) && steps[k].value == pos ==> c == steps[k].color
      ensures forall k :: Position(steps, pos) == Some(k) && 0 < k ==>
                c == Lerp(steps[k - 1].color, steps[k].color, Weight(steps[k - 1].value, steps[k].value, pos))
      ensures forall k :: Position(steps, pos) == Some(k) && 0 < k ==>
                ChannelsBetween(steps[k - 1].color, steps[k].color, c)
    {
      match Position(steps, pos)
      case None => steps[|steps| - 1].color
      case Some(x) =>
        if x == 0 then steps[0].color
        else
          var s1 := steps[x - 1];
          var s2 := steps[x];
          Lerp(s1.color, s2.color, Weight(s1.value, s2.value, pos))
    }

    /** `apply_on(map)`: an image of the map's size whose pixel (x, y) is the colour of height (x, y). */
    method ApplyOn(hmap: Heightmap) returns (img: Image)
      requires hmap.Valid() && |steps| > 0
      ensures fresh(img) && fresh(img.pixels) && img.Valid()
      ensures img.width == hmap.width && img.height == hmap.height
      ensures forall x: nat, y: nat :: x < img.width && y < img.height ==> img.Pixel(x, y) == Get(hmap.Get(x, y))
    {
      var cells := seq(hmap.data.Length, i requires 0 <= i < hmap.data.Length && |steps| > 0 reads this, hmap.data =>
                         Get(hmap.data[i]));
      img := new Image.FromPixels(hmap.width, hmap.height, cells);
    }
  }

  /** On a ramp of distinct ascending heights, a height equal to the last step's gets exactly the last colour. */
  lemma GetAtLastStep(ramp: ColorRamp, pos: real)
    requires |ramp.steps| > 0 && StrictlyAscending(ramp.steps)
    requires pos == ramp.steps[|ramp.steps| - 1].value
    ensures ramp.Get(pos) == ramp.steps[|ramp.steps| - 1].color
  {
    var last := |ramp.steps| - 1;
    match Position(ramp.steps, pos)
    case None =>
      assert false;
    case Some(k) =>
      if k < last {
        assert false;
      }
  }
}
