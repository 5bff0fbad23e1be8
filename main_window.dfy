/** The bookkeeping of the annotator's main window (main.py): the registry
    that ties canvas shapes to label rows, the three category taxonomies and
    their loading, the colour a category gets, and the conversion between a
    shape's points and the `{x, y, w, h}` box of an annotation file. */
module Annotator {
  import opened Wrappers
  import opened Qt
  import opened BBox
  import opened Categories
  import opened LabelList
  import opened CategoryList
  import opened Palette
  import opened Dataset

  /** The colour a shape is drawn with: a palette colour with alpha 200, or
      the colour derived from the category's text. */
  datatype Color = PaletteColor(rgb: Rgb, alpha: int) | ColorOfText(text: string)

  /** The lookups that raise `KeyError` in the source. */
  datatype Fault =
    | MissingName(name: string)
    | MissingPaletteId(id: int)
    | MissingCategoryId(id: int)
    | MissingUid(uid: string)
    | MissingKey(key: string)
    | UnregisteredShape

  /** How a window operation ends: done, returned early without a message,
      rejected with an error message, or stopped by a raised lookup error. */
  datatype Outcome = Done | Skipped | Rejected(message: string) | Raised(fault: Fault)

  /** Python's truth value of an optional string. */
  predicate Truthy(s: Option<string>)
  {
    s.Some? && s.value != ""
  }

  /** `id > np.max(list(palette.keys()))` for a non-empty palette. */
  predicate AboveAllKeys(palette: map<int, Rgb>, id: int)
  {
    forall k :: k in palette ==> k < id
  }

  /** `generate_color` as written: with categories loaded, the palette is
      consulted whenever the category's id is at most the largest palette key. */
  function GenerateColor(t: Taxonomy, palette: map<int, Rgb>, text: string): (c: Result<Color, Fault>)
    requires palette != map[]
    ensures t.byName == map[] ==> c == Ok(ColorOfText(text))
    ensures t.byName != map[] && text !in t.byName ==> c == Err(MissingName(text))
    ensures c.Ok? && c.value.PaletteColor? ==>
              text in t.byName && t.byName[text].id in palette && c.value == PaletteColor(palette[t.byName[text].id], 200)
    ensures text in t.byName && AboveAllKeys(palette, t.byName[text].id) ==> c == Ok(ColorOfText(text))
  {
    if |t.byName| > 0 then
      if text !in t.byName then Err(MissingName(text))
      else
        var id := t.byName[text].id;
        if AboveAllKeys(palette, id) then Ok(ColorOfText(text))
        else if id !in palette then Err(MissingPaletteId(id))
        else Ok(PaletteColor(palette[id], 200))
    else Ok(ColorOfText(text))
  }

  /** The evidently intended rule: the palette colour exactly when the
      category's id is a palette key, the text colour otherwise. */
  function GenerateColorIntended(t: Taxonomy, palette: map<int, Rgb>, text: string): (c: Result<Color, Fault>)
    ensures c.Err? <==> t.byName != map[] && text !in t.byName
    ensures c.Ok? && c.value.PaletteColor? <==> text in t.byName && t.byName[text].id in palette
    ensures c.Ok? ==> c.value == if text in t.byName && t.byName[text].id in palette
                                 then PaletteColor(palette[t.byName[text].id], 200) else ColorOfText(text)
  {
    if |t.byName| > 0 then
      if text !in t.byName then Err(MissingName(text))
      else
        var id := t.byName[text].id;
        if id in palette then Ok(PaletteColor(palette[id], 200)) else Ok(ColorOfText(text))
    else Ok(ColorOfText(text))
  }

  /** Wherever the source's rule gives a colour, the intended rule gives the same one. */
  lemma GenerateColorAgrees(t: Taxonomy, palette: map<int, Rgb>, text: string)
    requires palette != map[]
    requires GenerateColor(t, palette, text).Ok?
    ensures GenerateColorIntended(t, palette, text) == GenerateColor(t, palette, text)
  {
    if text in t.byName && AboveAllKeys(palette, t.byName[text].id) {
      assert t.byName[text].id !in palette;
    }
  }

  /** With the palette's keys 1 to 10, a category whose id is 0 or negative
      makes the source's rule look up a key the palette does not have. */
  lemma GenerateColorMissesSmallIds(t: Taxonomy, palette: map<int, Rgb>, text: string)
    requires palette != map[] && forall id :: id in palette <==> 1 <= id <= 10
    requires text in t.byName && t.byName[text].id <= 0
    ensures GenerateColor(t, palette, text) == Err(MissingPaletteId(t.byName[text].id))
    ensures GenerateColorIntended(t, palette, text) == Ok(ColorOfText(text))
  {
    assert 1 in palette;
  }

  /** The concrete case: a category file whose one category, "person", has id 0. */
  lemma GenerateColorPersonZero(palette: map<int, Rgb>)
    requires palette != map[] && forall id :: id in palette <==> 1 <= id <= 10
    ensures var t := Build([Category(0, "person", "all")]);
            GenerateColor(t, palette, "person") == Err(MissingPaletteId(0))
  {
    var t := Build([Category(0, "person", "all")]);
    assert [Category(0, "person", "all")][..0] == [];
    assert t.byName == map["person" := Category(0, "person", "all")];
    GenerateColorMissesSmallIds(t, palette, "person");
  }

  /** One record of an annotation file as `save_label_list` writes it (its
      constant fields `area`, `segmentation` and `iscrowd` left implicit). */
  datatype AnnotationOut = AnnotationOut(id: Value, bbox: Box, imageId: int, trackId: Value, trackable: bool,
                                         categoryId: int, secondCategoryId: Option<int>, thirdCategoryId: Option<int>)

  /** One record of an annotation file as `open_annotation_file` reads it:
      `None` stands for an absent key, and for the second and third category
      ids `Some(None)` stands for `null`. */
  datatype AnnotationIn = AnnotationIn(id: Value, categoryId: int, trackId: Option<Value>, videoInsId: Option<Value>,
                                       bbox: Option<Box>, secondCategoryId: Option<Option<int>>,
                                       thirdCategoryId: Option<Option<int>>, trackable: Option<bool>)

  /** The tracking id a record loads with: `video_ins_id` when present, else `track_id`. */
  function TrackIdOf(rec: AnnotationIn): Option<Value>
  {
    if rec.videoInsId.Some? then rec.videoInsId else rec.trackId
  }

  /** The second or third category name a record loads with: none when the
      key is absent, the taxonomy is empty or the id is `null`; otherwise the
      name under that id, or the failed lookup. */
  function LevelName(t: Taxonomy, key: Option<Option<int>>): (r: Result<Option<string>, Fault>)
    ensures r.Err? <==> key.Some? && t.names != [] && key.value.Some? && key.value.value !in t.idsToNames
    ensures r.Ok? && r.value.Some? ==>
              key.Some? && key.value.Some? && key.value.value in t.idsToNames && r.value.value == t.idsToNames[key.value.value]
  {
    if key.None? || |t.names| == 0 then Ok(None)
    else if key.value.None? then Ok(None)
    else if key.value.value in t.idsToNames then Ok(Some(t.idsToNames[key.value.value]))
    else Err(MissingCategoryId(key.value.value))
  }

  /** A record loads (rather than stopping the load) when its category id is
      known, it has a box and a tracking id, and its second and third
      category ids resolve. */
  predicate Decodes(primary: Taxonomy, second: Taxonomy, third: Taxonomy, rec: AnnotationIn)
  {
    && rec.categoryId in primary.idsToNames
    && rec.bbox.Some? && TrackIdOf(rec).Some?
    && LevelName(second, rec.secondCategoryId).Ok? && LevelName(third, rec.thirdCategoryId).Ok?
  }

  /** The label row a loading record gets under `uid`: its category's name,
      its id and tracking id, trackable unless it says otherwise, and the
      second and third categories it names or the default rule picks. */
  function RowOf(primary: Taxonomy, second: Taxonomy, third: Taxonomy, rec: AnnotationIn, uid: string): LabelRow
    requires WellFormed(primary) && WellFormed(second) && WellFormed(third)
    requires Decodes(primary, second, third, rec)
  {
    var name := primary.idsToNames[rec.categoryId];
    LabelRow(uid, name, rec.id, TrackIdOf(rec).value, rec.trackable.GetOr(true),
             DefaultChoice(LevelName(second, rec.secondCategoryId).value, second, primary.byName[name]),
             DefaultChoice(LevelName(third, rec.thirdCategoryId).value, third, primary.byName[name]),
             true, false)
  }

  /** `rows` followed by the label rows the first `n` records get under the
      first `n` uids. */
  function WithRows(rows: seq<LabelRow>, primary: Taxonomy, second: Taxonomy, third: Taxonomy,
                    data: seq<AnnotationIn>, uids: seq<string>, n: nat): (r: seq<LabelRow>)
    requires WellFormed(primary) && WellFormed(second) && WellFormed(third)
    requires n <= |data| && n <= |uids|
    requires forall j :: 0 <= j < n ==> Decodes(primary, second, third, data[j])
    ensures |r| == |rows| + n
  {
    if n == 0 then rows
    else WithRows(rows, primary, second, third, data, uids, n - 1) + [RowOf(primary, second, third, data[n - 1], uids[n - 1])]
  }

  /** The part of a canvas shape the window reads and writes. */
  class Shape {
    var category: string
    var trackId: Value
    var points: seq<Point>
    var lineColor: Option<Color>

    constructor (category: string, trackId: Value)
      ensures this.category == category && this.trackId == trackId
      ensures points == [] && lineColor == None
    {
      this.category := category;
      this.trackId := trackId;
      points := [];
      lineColor := None;
    }
  }

  /** The rows the category table holds after `set_category` loads `entries`:
      one `(id, name)` row per entry whose name is new. */
  function CategoryRows(entries: seq<Category>): seq<CategoryRow>
  {
    if entries == [] then []
    else
      var init := entries[..|entries| - 1];
      var c := entries[|entries| - 1];
      if c.name in Build(init).byName then CategoryRows(init) else CategoryRows(init) + [CategoryRow(c.id, c.name)]
  }

  /** The category table lists the loaded taxonomy: its names in load order,
      each with the id of the entry kept under that name. */
  lemma {:induction false} CategoryRowsListTaxonomy(entries: seq<Category>)
    ensures WellFormed(Build(entries))
    ensures |CategoryRows(entries)| == |Build(entries).names|
    ensures forall k :: 0 <= k < |CategoryRows(entries)| ==>
              CategoryRows(entries)[k] == CategoryRow(Build(entries).byName[Build(entries).names[k]].id, Build(entries).names[k])
  {
    BuildFirstOccurrences(entries);
    if entries != [] {
      var init := entries[..|entries| - 1];
      var c := entries[|entries| - 1];
      CategoryRowsListTaxonomy(init);
      var t := Build(init);
      if c.name !in t.byName {
        var t' := Record(t, c);
        forall k | 0 <= k < |t.names| ensures t'.names[k] == t.names[k] && t'.byName[t.names[k]] == t.byName[t.names[k]] {
          assert t.names[k] in t.byName;
        }
      }
    }
  }

  /** Two maps inverse to each other: the registry of `add_label`. */
  ghost predicate Inverse(uids: map<string, Shape>, shapes: map<Shape, string>)
  {
    && (forall u :: u in uids ==> uids[u] in shapes && shapes[uids[u]] == u)
    && (forall s :: s in shapes ==> shapes[s] in uids && uids[shapes[s]] == s)
  }

  lemma InverseRegister(uids: map<string, Shape>, shapes: map<Shape, string>, uid: string, shape: Shape)
    requires Inverse(uids, shapes) && uid !in uids && shape !in shapes
    ensures Inverse(uids[uid := shape], shapes[shape := uid])
  {
  }

  lemma InverseUnregister(uids: map<string, Shape>, shapes: map<Shape, string>, shape: Shape)
    requires Inverse(uids, shapes) && shape in shapes
    ensures Inverse(uids - {shapes[shape]}, shapes - {shape})
  {
    var uid := shapes[shape];
    var uids', shapes' := uids - {uid}, shapes - {shape};
    forall u | u in uids' ensures uids'[u] in shapes' && shapes'[uids'[u]] == u {
      assert uids[u] != shape;
    }
    forall s | s in shapes' ensures shapes'[s] in uids' && uids'[shapes'[s]] == s {
      assert shapes[s] != uid;
    }
  }

  /** The label rows carry distinct uids, exactly the registered ones. */
  ghost predicate Tracks(rows: seq<LabelRow>, uids: map<string, Shape>)
  {
    && UidsDistinct(rows)
    && (forall u {:trigger FirstRow(rows, u)} :: u in uids <==> FirstRow(rows, u) != -1)
  }

  lemma TracksRegister(rows: seq<LabelRow>, uids: map<string, Shape>, row: LabelRow, shape: Shape)
    requires Tracks(rows, uids) && row.uid !in uids
    ensures Tracks(rows + [row], uids[row.uid := shape])
    ensures FirstRow(rows + [row], row.uid) == |rows|
  {
    AppendFreshDistinct(rows, row);
    forall u ensures u in uids[row.uid := shape] <==> FirstRow(rows + [row], u) != -1 {
      FirstRowAppend(rows, row, u);
    }
    FirstRowAppend(rows, row, row.uid);
  }

  lemma TracksUnregister(rows: seq<LabelRow>, uids: map<string, Shape>, uid: string)
    requires Tracks(rows, uids)
    ensures Tracks(RemoveFirst(rows, uid), uids - {uid})
    ensures FirstRow(RemoveFirst(rows, uid), uid) == -1
  {
    RemoveFirstDistinct(rows, uid);
  }

  /** Shape `k` of `shapes` is registered under `uids[k]`. */
  ghost predicate Registered(registry: map<string, Shape>, uids: seq<string>, shapes: seq<Shape>)
  {
    && |shapes| <= |uids|
    && forall k :: 0 <= k < |shapes| ==> uids[k] in registry && registry[uids[k]] == shapes[k]
  }

  lemma RegisteredStep(registry: map<string, Shape>, uids: seq<string>, shapes: seq<Shape>, shape: Shape)
    requires Registered(registry, uids, shapes) && |shapes| < |uids| && uids[|shapes|] !in registry
    ensures Registered(registry[uids[|shapes|] := shape], uids, shapes + [shape])
  {
    var registry' := registry[uids[|shapes|] := shape];
    forall k | 0 <= k < |shapes| ensures uids[k] in registry' && registry'[uids[k]] == (shapes + [shape])[k] {
      assert uids[k] in registry;
    }
  }

  /** None of `uids[k..]` is registered. */
  ghost predicate Unused(registry: map<string, Shape>, uids: seq<string>, k: nat)
  {
    forall i :: k <= i < |uids| ==> uids[i] !in registry
  }

  lemma UnusedStep(registry: map<string, Shape>, uids: seq<string>, k: nat, shape: Shape)
    requires Unused(registry, uids, k) && k < |uids|
    requires forall i, j :: 0 <= i < j < |uids| ==> uids[i] != uids[j]
    ensures Unused(registry[uids[k] := shape], uids, k + 1)
  {
  }

  /** `registry` is `earlier` with exactly the first `n` of `uids` added:
      every earlier entry is kept and no other uid appears. */
  ghost predicate ExtendsBy(registry: map<string, Shape>, earlier: map<string, Shape>, uids: seq<string>, n: nat)
    requires n <= |uids|
  {
    && (forall u :: u in earlier ==> u in registry && registry[u] == earlier[u])
    && (forall u :: u in registry ==> u in earlier || u in uids[..n])
  }

  lemma ExtendsByStep(registry: map<string, Shape>, earlier: map<string, Shape>, uids: seq<string>, n: nat, shape: Shape)
    requires n < |uids| && ExtendsBy(registry, earlier, uids, n) && uids[n] !in registry
    ensures ExtendsBy(registry[uids[n] := shape], earlier, uids, n + 1)
  {
    assert uids[..n + 1] == uids[..n] + [uids[n]];
  }

  /** The main window's annotation state. */
  class MainWindow {
    var categorySetName: Option<string>
    var category: Taxonomy
    var secondCategory: Taxonomy
    var thirdCategory: Taxonomy
    /** The item lists of the combo-box delegates, by label-table column. */
    var delegates: map<int, seq<string>>
    const categoryTable: CategoryListTableModel
    const labelTable: LabelListTableModel
    var uidToShapes: map<string, Shape>
    var shapesToUids: map<Shape, string>
    const palette: map<int, Rgb>
    var datasetRootPath: Option<string>
    var imageFilePath: Option<string>
    var currentImage: Option<ImageRecord>

    constructor ()
      ensures categorySetName == None && datasetRootPath == None && imageFilePath == None && currentImage == None
      ensures category == EmptyTaxonomy && secondCategory == EmptyTaxonomy && thirdCategory == EmptyTaxonomy
      ensures delegates == map[] && categoryTable.tableData == []
      ensures uidToShapes == map[] && shapesToUids == map[] && labelTable.base.tableData == []
      ensures palette != map[] && forall id :: id in palette <==> 1 <= id <= 10
      ensures fresh(categoryTable) && fresh(labelTable) && fresh(labelTable.base)
      ensures Valid() && InStep() && TaxonomiesWellFormed() && labelTable.Valid()
    {
      var _, paletteDist := ColorPalette();
      assert 1 in paletteDist;
      palette := paletteDist;
      categorySetName := None;
      category, secondCategory, thirdCategory := EmptyTaxonomy, EmptyTaxonomy, EmptyTaxonomy;
      delegates := map[];
      categoryTable := new CategoryListTableModel();
      labelTable := new LabelListTableModel();
      uidToShapes, shapesToUids := map[], map[];
      datasetRootPath, imageFilePath, currentImage := None, None, None;
    }

    /** The uid-to-shape and shape-to-uid maps are inverse to each other. */
    ghost predicate Valid()
      reads this
    {
      Inverse(uidToShapes, shapesToUids)
    }

    /** The label table has one row per registered uid and no other rows. */
    ghost predicate InStep()
      reads this, labelTable.base
    {
      Tracks(labelTable.base.tableData, uidToShapes)
    }

    ghost predicate TaxonomiesWellFormed()
      reads this
    {
      WellFormed(category) && WellFormed(secondCategory) && WellFormed(thirdCategory)
    }

    /** `no_shapes`. */
    function NoShapes(): bool
      reads this
    {
      uidToShapes == map[]
    }

    /** With the table in step, there are no shapes exactly when the label table is empty. */
    lemma NoShapesIffNoRows()
      requires InStep()
      ensures NoShapes() <==> labelTable.base.tableData == []
    {
      var rows := labelTable.base.tableData;
      if rows != [] {
        assert FirstRow(rows, rows[0].uid) != -1;
        assert rows[0].uid in uidToShapes;
      }
      if uidToShapes != map[] {
        var u :| u in uidToShapes;
        assert FirstRow(rows, u) != -1;
      }
    }

    /** `add_label`: registers `shape` under the fresh `uid` in both maps and
      appends its label row, choosing the second and third categories by the
      default rule when none is given. */
    method AddLabel(shape: Shape, uid: string, id: Value, trackId: Value, trackable: bool,
                    secondGiven: Option<string>, thirdGiven: Option<string>)
      requires Valid() && InStep() && TaxonomiesWellFormed()
      requires uid !in uidToShapes && shape !in shapesToUids
      requires shape.category in category.byName
      modifies this, labelTable.base
      ensures categorySetName == old(categorySetName) && category == old(category) && delegates == old(delegates)
      ensures secondCategory == old(secondCategory) && thirdCategory == old(thirdCategory)
      ensures uidToShapes == old(uidToShapes)[uid := shape] && shapesToUids == old(shapesToUids)[shape := uid]
      ensures Valid() && InStep() && TaxonomiesWellFormed() && !NoShapes()
      ensures labelTable.base.tableData == old(labelTable.base.tableData) + [LabelRow(uid, shape.category, id, trackId, trackable,
                DefaultChoice(secondGiven, secondCategory, category.byName[shape.category]),
                DefaultChoice(thirdGiven, thirdCategory, category.byName[shape.category]), true, false)]
      ensures FirstRow(labelTable.base.tableData, uid) == |old(labelTable.base.tableData)|
      ensures datasetRootPath == old(datasetRootPath) && imageFilePath == old(imageFilePath) && currentImage == old(currentImage)
      ensures labelTable.base.currentRow == old(labelTable.base.currentRow)
    {
      ghost var rows := labelTable.base.tableData;
      uidToShapes := uidToShapes[uid := shape];
      shapesToUids := shapesToUids[shape := uid];
      var primary := category.byName[shape.category];
      var second := DefaultCategory(secondGiven, secondCategory, primary);
      var third := DefaultCategory(thirdGiven, thirdCategory, primary);
      labelTable.Append(uid, shape.category, id, trackId, trackable, second, third);
      ghost var row := labelTable.base.tableData[|rows|];
      assert labelTable.base.tableData == rows + [row];
      InverseRegister(old(uidToShapes), old(shapesToUids), uid, shape);
      TracksRegister(rows, old(uidToShapes), row, shape);
    }

    /** `remove_label`: nothing for no shape; a shape that was never
      registered raises; otherwise its uid leaves both maps and its row
      leaves the table. */
    method RemoveLabel(shape: Shape?) returns (r: Outcome)
      requires Valid() && InStep()
      modifies this, labelTable.base
      ensures shape == null ==> r == Done
      ensures shape != null && shape !in old(shapesToUids) ==> r == Raised(UnregisteredShape)
      ensures !(shape != null && shape in old(shapesToUids)) ==>
                uidToShapes == old(uidToShapes) && shapesToUids == old(shapesToUids)
                && labelTable.base.tableData == old(labelTable.base.tableData)
      ensures shape != null && shape in old(shapesToUids) ==>
                var uid := old(shapesToUids)[shape];
                && r == Done
                && labelTable.base.tableData == RemoveFirst(old(labelTable.base.tableData), uid)
                && uidToShapes == old(uidToShapes) - {uid} && shapesToUids == old(shapesToUids) - {shape}
                && FirstRow(labelTable.base.tableData, uid) == -1
      ensures Valid() && InStep()
      ensures categorySetName == old(categorySetName) && category == old(category) && delegates == old(delegates)
      ensures secondCategory == old(secondCategory) && thirdCategory == old(thirdCategory)
      ensures datasetRootPath == old(datasetRootPath) && imageFilePath == old(imageFilePath) && currentImage == old(currentImage)
      ensures labelTable.base.currentRow == old(labelTable.base.currentRow)
    {
      if shape == null {
        return Done;
      }
      if shape !in shapesToUids {
        return Raised(UnregisteredShape);
      }
      var uid := shapesToUids[shape];
      ghost var rows := labelTable.base.tableData;
      InverseUnregister(uidToShapes, shapesToUids, shape);
      TracksUnregister(rows, uidToShapes, uid);
      labelTable.RemoveRow(uid);
      shapesToUids := shapesToUids - {shape};
      uidToShapes := uidToShapes - {uid};
      assert Valid() && InStep();
      r := Done;
    }

    /** `reset_state`: the label table and both maps are emptied. */
    method ResetState()
      modifies this, labelTable.base
      ensures labelTable.base.tableData == [] && uidToShapes == map[] && shapesToUids == map[]
      ensures Valid() && InStep() && NoShapes()
      ensures categorySetName == old(categorySetName) && category == old(category) && delegates == old(delegates)
      ensures secondCategory == old(secondCategory) && thirdCategory == old(thirdCategory)
      ensures datasetRootPath == old(datasetRootPath) && imageFilePath == old(imageFilePath) && currentImage == old(currentImage)
      ensures labelTable.base.currentRow == old(labelTable.base.currentRow)
    {
      labelTable.base.Clear();
      shapesToUids := map[];
      uidToShapes := map[];
    }
  
    /** The resets `filter_dataset_dialog` makes before it rebuilds the image
      list: the label table is cleared, `reset_state` empties it and both
      maps, and no image is open any more. */
    method ClearBeforeFilter()
      modifies this, labelTable.base
      ensures NoShapes() && shapesToUids == map[] && labelTable.base.tableData == []
      ensures currentImage == None && imageFilePath == None
      ensures Valid() && InStep()
      ensures categorySetName == old(categorySetName) && category == old(category) && delegates == old(delegates)
      ensures secondCategory == old(secondCategory) && thirdCategory == old(thirdCategory)
      ensures datasetRootPath == old(datasetRootPath)
      ensures labelTable.base.currentRow == old(labelTable.base.currentRow)
    {
      labelTable.base.Clear();
      ResetState();
      currentImage := None;
      imageFilePath := None;
    }

    /** `set_category`: the set name becomes the file's name, and the primary
      taxonomy and the category table are rebuilt from nothing out of the
      file's entries; the category column's delegate offers the new names. */
    method SetCategory(file: CategoryFile)
      requires file.name.Some? && file.category.Some?
      modifies this, categoryTable
      ensures categorySetName == file.name
      ensures category == Build(file.category.value)
      ensures WellFormed(category) && FirstOccurrences(file.category.value, category)
      ensures categoryTable.tableData == CategoryRows(file.category.value)
      ensures delegates == old(delegates)[4 := category.names]
      ensures secondCategory == old(secondCategory) && thirdCategory == old(thirdCategory)
      ensures uidToShapes == old(uidToShapes) && shapesToUids == old(shapesToUids)
      ensures datasetRootPath == old(datasetRootPath) && imageFilePath == old(imageFilePath) && currentImage == old(currentImage)
    {
      categorySetName := file.name;
      var entries := file.category.value;
      category := EmptyTaxonomy;
      categoryTable.Clear();
      for i := 0 to |entries|
        invariant category == Build(entries[..i])
        invariant categoryTable.tableData == CategoryRows(entries[..i])
        invariant categorySetName == file.name && delegates == old(delegates)
        invariant secondCategory == old(secondCategory) && thirdCategory == old(thirdCategory)
        invariant uidToShapes == old(uidToShapes) && shapesToUids == old(shapesToUids)
        invariant datasetRootPath == old(datasetRootPath) && imageFilePath == old(imageFilePath) && currentImage == old(currentImage)
      {
        var c := entries[i];
        assert entries[..i + 1][..i] == entries[..i];
        if c.name in category.byName {
          continue;
        }
        category := Taxonomy(category.byName[c.name := c], category.idsToNames[c.id := c.name], category.names + [c.name]);
        categoryTable.Append(c.id, c.name);
      }
      assert entries[..|entries|] == entries;
      BuildFirstOccurrences(entries);
      delegates := delegates[4 := category.names];
    }

    /** `set_second_category`: the set name is taken from the file only when
      none is set, and reading it raises when the file has no `name`;
      otherwise the second taxonomy is rebuilt out of the file's entries. */
    method SetSecondCategory(file: CategoryFile) returns (r: Outcome)
      requires file.category.Some?
      modifies this
      ensures r == Done || r == Raised(MissingKey("name"))
      ensures r != Done <==> !Truthy(old(categorySetName)) && file.name.None?
      ensures r != Done ==>
                categorySetName == old(categorySetName) && secondCategory == old(secondCategory) && delegates == old(delegates)
      ensures r == Done ==>
                && categorySetName == (if Truthy(old(categorySetName)) then old(categorySetName) else file.name)
                && secondCategory == Build(file.category.value)
                && WellFormed(secondCategory) && FirstOccurrences(file.category.value, secondCategory)
                && delegates == old(delegates)[5 := secondCategory.names]
      ensures category == old(category) && thirdCategory == old(thirdCategory)
      ensures uidToShapes == old(uidToShapes) && shapesToUids == old(shapesToUids)
      ensures datasetRootPath == old(datasetRootPath) && imageFilePath == old(imageFilePath) && currentImage == old(currentImage)
    {
      if !Truthy(categorySetName) {
        if file.name.None? {
          return Raised(MissingKey("name"));
        }
        categorySetName := file.name;
      }
      secondCategory := LoadTaxonomy(file.category.value);
      delegates := delegates[5 := secondCategory.names];
      r := Done;
    }

    /** `set_third_category`: as `set_second_category`, for the third taxonomy. */
    method SetThirdCategory(file: CategoryFile) returns (r: Outcome)
      requires file.category.Some?
      modifies this
      ensures r == Done || r == Raised(MissingKey("name"))
      ensures r != Done <==> !Truthy(old(categorySetName)) && file.name.None?
      ensures r != Done ==>
                categorySetName == old(categorySetName) && thirdCategory == old(thirdCategory) && delegates == old(delegates)
      ensures r == Done ==>
                && categorySetName == (if Truthy(old(categorySetName)) then old(categorySetName) else file.name)
                && thirdCategory == Build(file.category.value)
                && WellFormed(thirdCategory) && FirstOccurrences(file.category.value, thirdCategory)
                && delegates == old(delegates)[6 := thirdCategory.names]
      ensures category == old(category) && secondCategory == old(secondCategory)
      ensures uidToShapes == old(uidToShapes) && shapesToUids == old(shapesToUids)
      ensures datasetRootPath == old(datasetRootPath) && imageFilePath == old(imageFilePath) && currentImage == old(currentImage)
    {
      if !Truthy(categorySetName) {
        if file.name.None? {
          return Raised(MissingKey("name"));
        }
        categorySetName := file.name;
      }
      thirdCategory := LoadTaxonomy(file.category.value);
      delegates := delegates[6 := thirdCategory.names];
      r := Done;
    }

    /** `open_category_file` once the file is read: with an image open the
      shapes are reset first; a payload without `category` is rejected and
      leaves the taxonomy as it was; one without `name` raises in
      `set_category` before anything is loaded. */
    method OpenCategoryFile(file: CategoryFile) returns (r: Outcome)
      requires Valid() && InStep() && TaxonomiesWellFormed()
      modifies this, labelTable.base, categoryTable
      ensures old(currentImage).Some? ==> NoShapes() && labelTable.base.tableData == [] && shapesToUids == map[]
      ensures old(currentImage).None? ==>
                uidToShapes == old(uidToShapes) && shapesToUids == old(shapesToUids)
                && labelTable.base.tableData == old(labelTable.base.tableData)
      ensures file.category.None? ==> r == Rejected("Invalid category file.")
      ensures file.category.Some? && file.name.None? ==> r == Raised(MissingKey("name"))
      ensures r != Done ==>
                category == old(category) && categorySetName == old(categorySetName)
                && categoryTable.tableData == old(categoryTable.tableData) && delegates == old(delegates)
      ensures file.category.Some? && file.name.Some? ==>
                r == Done && categorySetName == file.name && category == Build(file.category.value)
                && categoryTable.tableData == CategoryRows(file.category.value)
                && delegates == old(delegates)[4 := category.names]
      ensures secondCategory == old(secondCategory) && thirdCategory == old(thirdCategory)
      ensures datasetRootPath == old(datasetRootPath) && imageFilePath == old(imageFilePath) && currentImage == old(currentImage)
      ensures labelTable.base.currentRow == old(labelTable.base.currentRow)
      ensures Valid() && InStep() && TaxonomiesWellFormed()
    {
      if currentImage.Some? {
        ResetState();
      }
      if file.category.None? {
        return Rejected("Invalid category file.");
      }
      if file.name.None? {
        return Raised(MissingKey("name"));
      }
      SetCategory(file);
      r := Done;
    }
  
    /** The record `save_label_list` writes for one label row, or the lookup
      that fails first: the row's shape, its second and third categories,
      then its primary category. */
    function AnnotationOf(row: LabelRow): Result<AnnotationOut, Fault>
      requires currentImage.Some?
      reads this, uidToShapes.Values
    {
      if row.uid !in uidToShapes then Err(MissingUid(row.uid))
      else if row.secondCategory.Some? && row.secondCategory.value !in secondCategory.byName then
        Err(MissingName(row.secondCategory.value))
      else if row.thirdCategory.Some? && row.thirdCategory.value !in thirdCategory.byName then
        Err(MissingName(row.thirdCategory.value))
      else if row.category !in category.byName then Err(MissingName(row.category))
      else
        Ok(AnnotationOut(row.id, BoundingBox(uidToShapes[row.uid].points), currentImage.value.id,
                         row.trackId, row.trackable, category.byName[row.category].id,
                         if row.secondCategory.None? then None else Some(secondCategory.byName[row.secondCategory.value].id),
                         if row.thirdCategory.None? then None else Some(thirdCategory.byName[row.thirdCategory.value].id)))
    }

    /** `save_label_list` up to the write: refused without a category set or
      a dataset, skipped without an image or an annotation path; otherwise one
      record per label row, in table order, each box the bounding box of the
      row's shape. Nothing is written when a lookup fails. */
    method SaveLabelList(annotationPath: Option<string>) returns (r: Outcome, records: seq<AnnotationOut>)
      ensures !Truthy(categorySetName) ==> r == Rejected("Error: Category list may not be loaded.")
      ensures Truthy(categorySetName) && !Truthy(datasetRootPath) ==> r == Rejected("Error: Dataset may not be loaded.")
      ensures Truthy(categorySetName) && Truthy(datasetRootPath) && (currentImage.None? || !Truthy(annotationPath)) ==> r == Skipped
      ensures r == Done ==>
                && Truthy(categorySetName) && Truthy(datasetRootPath) && currentImage.Some? && Truthy(annotationPath)
                && |records| == |labelTable.base.tableData|
                && forall i :: 0 <= i < |records| ==> AnnotationOf(labelTable.base.tableData[i]) == Ok(records[i])
      ensures r.Raised? ==> currentImage.Some? && exists i :: (
                && 0 <= i < |labelTable.base.tableData|
                && AnnotationOf(labelTable.base.tableData[i]) == Err(r.fault)
                && forall j :: 0 <= j < i ==> AnnotationOf(labelTable.base.tableData[j]).Ok?)
      ensures (&& Truthy(categorySetName) && Truthy(datasetRootPath) && currentImage.Some? && Truthy(annotationPath)
               && forall i :: 0 <= i < |labelTable.base.tableData| ==> AnnotationOf(labelTable.base.tableData[i]).Ok?)
              ==> r == Done
      ensures r != Done ==> records == []
    {
      records := [];
      if !Truthy(categorySetName) {
        return Rejected("Error: Category list may not be loaded."), [];
      }
      if !Truthy(datasetRootPath) {
        return Rejected("Error: Dataset may not be loaded."), [];
      }
      if currentImage.None? || !Truthy(annotationPath) {
        return Skipped, [];
      }
      var rows := labelTable.base.tableData;
      for i := 0 to |rows|
        invariant |records| == i
        invariant forall j :: 0 <= j < i ==> AnnotationOf(rows[j]) == Ok(records[j])
      {
        var s := rows[i];
        if s.uid !in uidToShapes {
          return Raised(MissingUid(s.uid)), [];
        }
        var shape := uidToShapes[s.uid];
        var box := EncodeBBox(shape.points);
        var second: Option<int> := None;
        if s.secondCategory.Some? {
          if s.secondCategory.value !in secondCategory.byName {
            return Raised(MissingName(s.secondCategory.value)), [];
          }
          second := Some(secondCategory.byName[s.secondCategory.value].id);
        }
        var third: Option<int> := None;
        if s.thirdCategory.Some? {
          if s.thirdCategory.value !in thirdCategory.byName {
            return Raised(MissingName(s.thirdCategory.value)), [];
          }
          third := Some(thirdCategory.byName[s.thirdCategory.value].id);
        }
        if s.category !in category.byName {
          return Raised(MissingName(s.category)), [];
        }
        records := records + [AnnotationOut(s.id, box, currentImage.value.id, s.trackId, s.trackable,
                                            category.byName[s.category].id, second, third)];
      }
      r := Done;
    }
  
    /** The body of `open_annotation_file`'s loop for one record: the record's
      shape, with the corners of its box as points, is registered under
      `uid`; a record without a box stops the load, a failed lookup raises. */
    method LoadAnnotation(rec: AnnotationIn, uid: string) returns (r: Outcome, shape: Shape?)
      requires Valid() && InStep() && TaxonomiesWellFormed()
      requires uid !in uidToShapes
      modifies this, labelTable.base
      ensures categorySetName == old(categorySetName) && category == old(category) && delegates == old(delegates)
      ensures secondCategory == old(secondCategory) && thirdCategory == old(thirdCategory)
      ensures datasetRootPath == old(datasetRootPath) && imageFilePath == old(imageFilePath) && currentImage == old(currentImage)
      ensures Valid() && InStep()
      ensures r == Done <==> Decodes(category, secondCategory, thirdCategory, rec)
      ensures r != Done ==> (r == Skipped || r.Raised?) && (r == Skipped ==> rec.bbox.None?)
      ensures rec.categoryId !in category.idsToNames ==> r == Raised(MissingCategoryId(rec.categoryId))
      ensures rec.categoryId in category.idsToNames && TrackIdOf(rec).None? ==> r == Raised(MissingKey("track_id"))
      ensures rec.categoryId in category.idsToNames && TrackIdOf(rec).Some? && rec.bbox.None? ==> r == Skipped
      ensures r != Done ==> uidToShapes == old(uidToShapes) && labelTable.base.tableData == old(labelTable.base.tableData)
      ensures labelTable.base.currentRow == old(labelTable.base.currentRow)
      ensures r == Done ==>
                && shape != null && fresh(shape)
                && shape.category == category.idsToNames[rec.categoryId]
                && shape.trackId == TrackIdOf(rec).value
                && shape.points == Corners(rec.bbox.value)
                && shape.lineColor == Some(GenerateColorIntended(category, palette, shape.category).value)
                && uidToShapes == old(uidToShapes)[uid := shape]
                && labelTable.base.tableData == old(labelTable.base.tableData) + [RowOf(category, secondCategory, thirdCategory, rec, uid)]
    {
      shape := null;
      if rec.categoryId !in category.idsToNames {
        return Raised(MissingCategoryId(rec.categoryId)), null;
      }
      var name := category.idsToNames[rec.categoryId];
      var trackId := TrackIdOf(rec);
      if trackId.None? {
        return Raised(MissingKey("track_id")), null;
      }
      var s := new Shape(name, trackId.value);
      if rec.bbox.None? {
        return Skipped, null;
      }
      s.points := Corners(rec.bbox.value);
      var color := GenerateColorIntended(category, palette, name);
      s.lineColor := Some(color.value);
      var second := LevelName(secondCategory, rec.secondCategoryId);
      if second.Err? {
        return Raised(second.error), null;
      }
      var third := LevelName(thirdCategory, rec.thirdCategoryId);
      if third.Err? {
        return Raised(third.error), null;
      }
      AddLabel(s, uid, rec.id, trackId.value, rec.trackable.GetOr(true), second.value, third.value);
      return Done, s;
    }

    /** `open_annotation_file` once the records are read: record `k` is
      loaded under `uids[k]`, in order, until one stops the load or raises;
      the shapes loaded before that stay registered. */
    method OpenAnnotationFile(data: seq<AnnotationIn>, uids: seq<string>) returns (r: Outcome, shapes: seq<Shape>)
      requires Valid() && InStep() && TaxonomiesWellFormed()
      requires |uids| >= |data|
      requires forall i, j :: 0 <= i < j < |uids| ==> uids[i] != uids[j]
      requires Unused(uidToShapes, uids, 0)
      modifies this, labelTable.base
      ensures categorySetName == old(categorySetName) && category == old(category) && delegates == old(delegates)
      ensures secondCategory == old(secondCategory) && thirdCategory == old(thirdCategory)
      ensures Valid() && InStep()
      ensures r == Done || r == Skipped || r.Raised?
      ensures r == Done <==> |shapes| == |data|
      ensures |shapes| <= |data| && forall k :: 0 <= k < |shapes| ==> Decodes(category, secondCategory, thirdCategory, data[k])
      ensures r != Done ==> !Decodes(category, secondCategory, thirdCategory, data[|shapes|])
      ensures r == Skipped ==> data[|shapes|].bbox.None?
      ensures labelTable.base.tableData == WithRows(old(labelTable.base.tableData), category, secondCategory, thirdCategory, data, uids, |shapes|)
      ensures forall k :: 0 <= k < |shapes| ==> fresh(shapes[k])
      ensures Registered(uidToShapes, uids, shapes)
      ensures ExtendsBy(uidToShapes, old(uidToShapes), uids, |shapes|)
      ensures datasetRootPath == old(datasetRootPath) && imageFilePath == old(imageFilePath) && currentImage == old(currentImage)
      ensures labelTable.base.currentRow == old(labelTable.base.currentRow)
    {
      ghost var rows0, registry0 := labelTable.base.tableData, uidToShapes;
      ghost var primary, second, third := category, secondCategory, thirdCategory;
      assert WellFormed(primary) && WellFormed(second) && WellFormed(third);
      shapes := [];
      r := Done;
      var k := 0;
      while k < |data|
        invariant categorySetName == old(categorySetName) && delegates == old(delegates)
        invariant category == primary && secondCategory == second && thirdCategory == third
        invariant Valid() && InStep()
        invariant k <= |data| && |shapes| == k && r == Done
        invariant Unused(uidToShapes, uids, k)
        invariant forall j :: 0 <= j < k ==> Decodes(primary, second, third, data[j])
        invariant labelTable.base.tableData == WithRows(rows0, primary, second, third, data, uids, k)
        invariant forall j :: 0 <= j < k ==> fresh(shapes[j])
        invariant Registered(uidToShapes, uids, shapes)
        invariant ExtendsBy(uidToShapes, registry0, uids, k)
        invariant datasetRootPath == old(datasetRootPath) && imageFilePath == old(imageFilePath) && currentImage == old(currentImage)
        invariant labelTable.base.currentRow == old(labelTable.base.currentRow)
      {
        ghost var before, registry := labelTable.base.tableData, uidToShapes;
        var shape;
        r, shape := LoadAnnotation(data[k], uids[k]);
        if r != Done {
          break;
        }
        assert Decodes(primary, second, third, data[k]);
        assert forall j :: 0 <= j < k + 1 ==> Decodes(primary, second, third, data[j]);
        assert labelTable.base.tableData == before + [RowOf(primary, second, third, data[k], uids[k])];
        RegisteredStep(registry, uids, shapes, shape);
        UnusedStep(registry, uids, k, shape);
        ExtendsByStep(registry, registry0, uids, k, shape);
        shapes := shapes + [shape];
        k := k + 1;
      }
    }
  }
}
