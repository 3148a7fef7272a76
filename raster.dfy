/** The RGBA pixel buffer both renderers draw into (Go's image.RGBA), indexed
    img[y, x]: row y, column x. */
module Raster {

  /** One 8-bit colour channel. */
  type Channel = c: int | 0 <= c < 256

  datatype Rgba = Rgba(r: Channel, g: Channel, b: Channel, a: Channel)

  /** The zero value every pixel of a new image starts with. */
  const Transparent := Rgba(0, 0, 0, 0)

  const White := Rgba(255, 255, 255, 255)

  /** image.NewRGBA(image.Rect(0, 0, width, height)): a fresh width x height
      buffer whose pixels all hold the zero colour. */
  method NewRgba(width: nat, height: nat) returns (img: array2<Rgba>)
    ensures fresh(img)
    ensures img.Length0 == height && img.Length1 == width
    ensures forall y, x :: 0 <= y < height && 0 <= x < width ==> img[y, x] == Transparent
  {
    img := new Rgba[height, width]((y, x) => Transparent);
  }
}
