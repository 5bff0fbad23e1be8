/** The fixed colour table of the ten traffic categories
    (views/create_palette.py), consulted when a shape's colour is chosen. */
module Palette {
  import opened Qt

  datatype PaletteEntry = PaletteEntry(id: int, category: string, color: string, rgb: Rgb)

  predicate IsComponent(c: int)
  {
    0 <= c <= 255
  }

  /** Builds the list of palette entries (what the source writes to
      color_palette.json) and the id-to-RGB map it returns. */
  method ColorPalette() returns (palette: seq<PaletteEntry>, paletteDist: map<int, Rgb>)
    ensures forall id :: id in paletteDist <==> 1 <= id <= 10
    ensures forall id :: id in paletteDist ==>
              IsComponent(paletteDist[id].red) && IsComponent(paletteDist[id].green) && IsComponent(paletteDist[id].blue)
    ensures |palette| == 10
    ensures forall i :: 0 <= i < |palette| ==> palette[i].id == i + 1
    ensures forall i :: 0 <= i < |palette| ==> palette[i].id in paletteDist && paletteDist[palette[i].id] == palette[i].rgb
    ensures paletteDist[3] == Rgb(139, 69, 19) && paletteDist[5] == Rgb(255, 0, 0)
  {
    palette := [];
    paletteDist := map[];
    var color: PaletteEntry;

    color := PaletteEntry(1, "pedestrian", "blue", Rgb(0, 0, 255));
    palette := palette + [color];
    paletteDist := paletteDist[color.id := color.rgb];

    color := PaletteEntry(2, "rider", "yellow", Rgb(255, 255, 0));
    palette := palette + [color];
    paletteDist := paletteDist[color.id := color.rgb];

    color := PaletteEntry(3, "car", "brown", Rgb(139, 69, 19));
    palette := palette + [color];
    paletteDist := paletteDist[color.id := color.rgb];

    color := PaletteEntry(4, "truck", "dark green", Rgb(0, 100, 0));
    palette := palette + [color];
    paletteDist := paletteDist[color.id := color.rgb];

    color := PaletteEntry(5, "bus", "red", Rgb(255, 0, 0));
    palette := palette + [color];
    paletteDist := paletteDist[color.id := color.rgb];

    color := PaletteEntry(6, "motorcycle", "deep pink", Rgb(255, 20, 145));
    palette := palette + [color];
    paletteDist := paletteDist[color.id := color.rgb];

    color := PaletteEntry(7, "bicycle", "orange", Rgb(255, 165, 0));
    palette := palette + [color];
    paletteDist := paletteDist[color.id := color.rgb];

    color := PaletteEntry(8, "train", "navy", Rgb(0, 0, 128));
    palette := palette + [color];
    paletteDist := paletteDist[color.id := color.rgb];

    color := PaletteEntry(9, "traffic light", "purple", Rgb(160, 32, 240));
    palette := palette + [color];
    paletteDist := paletteDist[color.id := color.rgb];

    color := PaletteEntry(10, "traffic sign", "gray", Rgb(128, 128, 128));
    palette := palette + [color];
    paletteDist := paletteDist[color.id := color.rgb];
  }
}
