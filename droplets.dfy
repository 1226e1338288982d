/** The droplet that one drop-injection tick hands to the GPU: four unsigned
    16-bit words, copied into a small uniform buffer. */
module Droplets {
  import opened Dispatch

  /** Swift's UInt16. */
  newtype UInt16 = x: int | 0 <= x < 0x1_0000

  /** Size in bytes of one UInt16 (MemoryLayout<UInt16>.size). */
  const UInt16Size: nat := 2

  /** Number of UInt16 words in the droplet buffer. */
  const DropletWords: nat := 4

  /** Length in bytes of the droplet buffer the renderer allocates. */
  const DropletBufferLength: nat := UInt16Size * DropletWords

  datatype Droplet = Droplet(x: UInt16, y: UInt16, radius: UInt16, strength: UInt16)

  /** The ranges a drop tick draws from: a position anywhere on the field,
      edges included, a radius of 1 to 30 texels and a strength of 8 to 12. */
  predicate InRange(d: Droplet, size: TextureSize)
  {
    d.x as int <= size.width && d.y as int <= size.height &&
    1 <= d.radius <= 30 && 8 <= d.strength <= 12
  }

  /** The field extent must fit a UInt16 for the tick to convert it into the
      upper bound of its random position; a larger extent traps. */
  predicate ExtentFitsUInt16(size: TextureSize)
  {
    size.width < 0x1_0000 && size.height < 0x1_0000
  }

  /** The buffer contents written for `d`: x, y, radius, strength, in that order. */
  function Encode(d: Droplet): (w: seq<UInt16>)
    ensures |w| * UInt16Size == DropletBufferLength
  {
    [d.x, d.y, d.radius, d.strength]
  }

  /** How the four buffer words are read back as a droplet. */
  function Decode(w: seq<UInt16>): (d: Droplet)
    requires |w| == DropletWords
  {
    Droplet(w[0], w[1], w[2], w[3])
  }

  /** Reading the buffer back yields the droplet that was written. */
  lemma DecodeEncode(d: Droplet)
    ensures Decode(Encode(d)) == d
  {
  }

  /** Every four-word buffer is the encoding of the droplet it decodes to, so
      the layout loses nothing in either direction. */
  lemma EncodeDecode(w: seq<UInt16>)
    requires |w| == DropletWords
    ensures Encode(Decode(w)) == w
  {
  }
}
