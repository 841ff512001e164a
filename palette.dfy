/** One entry of the ordered palette (`src/color_palette.rs`). */
module Palette {
  import opened Pixel

  /** `ColorMapElement`: the color emitted and the scale/offset applied to the
      threshold when this entry is tested. */
  datatype ColorMapElement = ColorMapElement(color: RGB, scale: real, offset: real)

  /** The two-entry black/white default palette. */
  const DefaultColorMap: seq<ColorMapElement> := [
    ColorMapElement(RGB(0.0, 0.0, 0.0, 1.0), 1.0, 0.0),
    ColorMapElement(RGB(1.0, 1.0, 1.0, 1.0), 1.0, 0.0)
  ]
}
