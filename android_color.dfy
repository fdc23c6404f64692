// android.graphics.Color values used by the console, as the unsigned ARGB bit
// pattern of the Java int.

module AndroidColor {

  /** Color.rgb(r, g, b): fully opaque. */
  function Rgb(r: nat, g: nat, b: nat): (c: nat)
    requires r < 256 && g < 256 && b < 256
    ensures c / 0x100_0000 == 0xFF && c % 0x100 == b
  {
    0xFF00_0000 + r * 0x1_0000 + g * 0x100 + b
  }

  const White: nat := 0xFFFF_FFFF
  const Black: nat := 0xFF00_0000
  const Red: nat := 0xFFFF_0000
  const Green: nat := 0xFF00_FF00
  const Yellow: nat := 0xFFFF_FF00
}
