/**
 * The pixel buffer the colour ramp paints and the shader updates:
 * `ImageBuffer<Rgb<u8>, Vec<u8>>` of the `image` crate, seen as a row-major
 * array of colours, pixel (x, y) at flat index `y * width + x`.
 */
module Images {
  import opened Grid
  import opened Colors

  class Image {
    const width: nat
    const height: nat
    const pixels: array<Color>

    /** The buffer holds exactly one colour per pixel. */
    predicate Valid() {
      pixels.Length == Mul(height, width)
    }

    /** `ImageBuffer::from_fn` once its closure has been evaluated on every pixel, in row-major order. */
    constructor FromPixels(width: nat, height: nat, cells: seq<Color>)
      requires |cells| == Mul(height, width)
      ensures this.width == width && this.height == height
      ensures fresh(pixels) && pixels[..] == cells && Valid()
    {
      this.width := width;
      this.height := height;
      pixels := new Color[|cells|](i requires 0 <= i < |cells| => cells[i]);
    }

    /** `get_pixel(x, y)`. */
    function Pixel(x: nat, y: nat): (c: Color)
      reads pixels
      requires Valid() && x < width && y < height
      ensures Index(x, y, width) < pixels.Length && c == pixels[Index(x, y, width)]
    {
      IndexInBounds(x, y, width, height);
      pixels[Index(x, y, width)]
    }
  }
}
