/**
 * Android resource identifiers used by the preference enums.
 *
 * The build assigns each `R.string` and `R.dimen` entry a distinct non-zero
 * integer (of the form 0x7fTTEEEE). The model fixes stand-in values with the
 * same two properties; nothing else about the numbers is relied upon.
 */
module Resources {

  // R.string ids of the text size options
  const TextSizeSmallId: int := 0x7f11_0041
  const TextSizeMediumId: int := 0x7f11_0042
  const TextSizeLargeId: int := 0x7f11_0043

  // R.dimen ids of the primary font sizes
  const FontSizeSmallDimen: int := 0x7f06_0061
  const FontSizeMediumDimen: int := 0x7f06_0062
  const FontSizeLargeDimen: int := 0x7f06_0063

  // R.string ids of the colour scheme options
  const ColorSchemeDefaultId: int := 0x7f11_0031
  const ColorSchemeLightId: int := 0x7f11_0032
  const ColorSchemeDarkId: int := 0x7f11_0033

  // R.string ids of the font options
  const FontStyleDefaultId: int := 0x7f11_0035
  const FontStyleSerifId: int := 0x7f11_0036
  const FontStyleMonospaceId: int := 0x7f11_0037
  const FontStyleCursiveId: int := 0x7f11_0038

  /** Stand-ins for Compose's built-in `FontFamily` objects. */
  datatype FontFamily = DefaultFamily | SerifFamily | MonospaceFamily | CursiveFamily
}
