/**
 * The colour value type of image/src/color.rs: three 8-bit channels and the
 * clamped, truncating linear blend between two colours.
 */
module Colors {
  import opened Numeric

  /** The channel array `[u8; 3]` inside `Rgb<u8>`. */
  type Rgb = s: seq<u8> | |s| == 3 witness [0, 0, 0]

  /** `Color(Rgb<u8>)`: channel 0 is red, 1 green, 2 blue. */
  datatype Color = Color(rgb: Rgb) {
    function Red(): u8 { rgb[0] }
    function Green(): u8 { rgb[1] }
    function Blue(): u8 { rgb[2] }
  }

  /** `Color::new`: the accessors give back the channels in the order passed. */
  function New(rgb: Rgb): (c: Color)
    ensures c.Red() == rgb[0] && c.Green() == rgb[1] && c.Blue() == rgb[2]
  {
    Color(rgb)
  }

  /** Each channel of `c` lies between the same channel of `a` and of `b`. */
  predicate ChannelsBetween(a: Color, b: Color, c: Color) {
    forall i :: 0 <= i < 3 ==> Between(a.rgb[i] as real, b.rgb[i] as real, c.rgb[i] as real)
  }

  /**
   * One channel of the blend: `((1 - t) * l + t * r) as u8`. For t in [0, 1]
   * the mix lies between the two channels, so the cast truncates toward zero
   * and never saturates: the channel is the whole part of the mix.
   */
  function Channel(l: u8, r: u8, t: real): (v: u8)
    requires 0.0 <= t <= 1.0
    ensures v as real <= (1.0 - t) * (l as real) + t * (r as real) < v as real + 1.0
    ensures Between(l as real, r as real, v as real)
    ensures t == 0.0 ==> v == l
    ensures t == 1.0 ==> v == r
    ensures l == r ==> v == l
  {
    var m := (1.0 - t) * (l as real) + t * (r as real);
    MixBetween(l as real, r as real, t);
    assert Between(l as real, r as real, m);
    assert 0.0 <= l as real < 256.0 && 0.0 <= r as real < 256.0;
    assert 0.0 <= m < 256.0;
    m.Floor as u8
  }

  /**
   * `lerp(left, right, t)`: `t` below 0 gives `left`, above 1 gives `right`,
   * otherwise each channel is blended and truncated.
   */
  function Lerp(left: Color, right: Color, t: real): (c: Color)
    ensures t <= 0.0 ==> c == left
    ensures t >= 1.0 ==> c == right
    ensures left == right ==> c == left
    ensures 0.0 <= t <= 1.0 ==> forall i :: 0 <= i < 3 ==> c.rgb[i] == Channel(left.rgb[i], right.rgb[i], t)
    ensures 0.0 <= t <= 1.0 ==> ChannelsBetween(left, right, c)
  {
    if t < 0.0 then left
    else if t > 1.0 then right
    else
      var c := Color(seq(3, i requires 0 <= i < 3 => Channel(left.rgb[i], right.rgb[i], t)));
      assert t == 0.0 ==> c.rgb == left.rgb;
      assert t == 1.0 ==> c.rgb == right.rgb;
      assert left == right ==> c.rgb == left.rgb;
      c
  }
}
