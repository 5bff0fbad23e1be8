# Video object annotation interface: bookkeeping model

This project models the annotation bookkeeping of a Qt desktop tool for
labelling objects in video frames, and proves properties of it. A user opens a
dataset manifest (a list of image records under a root directory) and one to
three category files (taxonomies). They draw shapes on the current image and
give each shape a label row, then save the labels as annotation records with
integer bounding boxes. The model covers:

- **Table models.** `BaseTable` (`views/base_table_model.py`) holds the rows,
  the header and the highlighted row. `LabelList`, `FileList` and
  `CategoryList` hold the label, file and category tables. Each is a class
  whose `tableData` sequence the methods reassign. The label table includes
  the combo-box delegate that edits its category columns.
- **Taxonomies.** `Categories` models a taxonomy as a name→entry map, an
  id→name map and a list of names in load order. The first entry with a name
  wins. It also models the first-match default rule that `add_label` applies
  to the second and third categories.
- **The main window.** `Annotator` models the fields of the window that these
  operations read and write:
  - the uid→shape and shape→uid registry and the label table that must stay
    in step with it;
  - loading and validating category files;
  - the colour a category gets from the palette;
  - saving the label table as annotation records, and loading them back.
- **Bounding boxes.** `BBox` is the box codec. A shape's points are saved as
  `{x, y, w, h}` with inclusive extents, and loaded back as the four corners.
- **The image list.** `Dataset` models it as built by loading a manifest and
  by filtering to one directory. Every record's `index` is its path's
  position. It also covers next/previous navigation over that index and the
  records that saving the dataset writes back.
- **Messages.** `StringBundle` is the properties-file parser of
  `libs/string_bundle.py`.
- **Palette.** `Palette` is the constant id→RGB table of
  `views/create_palette.py`.

Python exceptions that a user can trigger (`KeyError` from a lookup) appear as
`Raised` outcomes of the `Outcome` datatype. Early returns appear as `Skipped`
or as `Rejected` with the error message shown. Dialogs, files and the
filesystem are parameters:
- a category file is a `CategoryFile` value;
- a manifest image list is a `seq<ImageRecord>`;
- the files that exist are a `set<string>`;
- the fresh uids that `uuid.uuid4()` would produce are a sequence of distinct
  strings.

## Model

| member | source | states |
|---|---|---|
| BaseTable.BaseTableModel.constructor | views/base_table_model.py:7-13 | a new model holds the given header labels, no rows, and current row -1, so no row is highlighted |
| BaseTable.BaseTableModel.RowCount | views/base_table_model.py:35-36 | the row count is the number of rows held, and 0 exactly when the table is empty |
| BaseTable.BaseTableModel.ColumnCount | views/base_table_model.py:32-33 | the column count is the number of header labels |
| BaseTable.BaseTableModel.Clear | views/base_table_model.py:35-40 | the rows become empty, so the row count is 0; the highlighted row is kept |
| BaseTable.BaseTableModel.SetCurrentRow | views/base_table_model.py:23-25 | the highlighted row becomes `row`; the rows are unchanged |
| BaseTable.BaseTableModel.Data | views/base_table_model.py:15-21 | a colour is returned exactly for the highlighted row with the background or foreground role: (4,110,229) for the background, white for the foreground; every other cell gives an empty variant |
| BaseTable.BaseTableModel.HeaderData | views/base_table_model.py:27-30 | the horizontal display role gives `header_labels[section]`; every other role or orientation falls back to the default header |
| LabelList.LabelListTableModel.constructor | views/label_list_table_model.py:9-11 | the label table starts empty with its seven column headers |
| LabelList.LabelListTableModel.Append | views/label_list_table_model.py:13-22 | exactly one row is added at the end, with the given uid, category, ids, trackable flag and second/third categories, visible and not checked; earlier rows are unchanged |
| LabelList.LabelListTableModel.Data | views/label_list_table_model.py:25-48 | an invalid index gives nothing; the display role shows id, tracking id, category, second and third category in columns 1, 2, 4, 5 and 6 and an empty text elsewhere; the check-state role gives the check box of columns 0 and 3; alignment is centred; other roles defer to the base table's highlight rule |
| LabelList.LabelListTableModel.CheckStateOf | views/label_list_table_model.py:77-85 | column 0 reflects `visible`, column 3 reflects `trackable`, and every other column has no check state |
| LabelList.LabelListTableModel.SetData | views/label_list_table_model.py:50-75 | answers True exactly for a valid index with the check-state or edit role; a check-state write sets `visible` (column 0) or `trackable` (column 3) to `value == Checked` and changes no other field; an edit write stores `str(value)` in column 1, 2, 4, 5 or 6 and changes nothing for any other column; a False answer leaves the table unchanged |
| LabelList.EditRoleKeepsVisibility | views/label_list_table_model.py:55-74 | an edit-role write to column 0 leaves the row unchanged, whatever the value, while a check-state write to column 0 sets visibility |
| LabelList.LabelListTableModel.Flags | views/label_list_table_model.py:87-96 | columns 0 and 3 add checkable, columns 1 and 2 add editable, columns 4 to 6 add selectable and editable, and no other column adds a flag; a valid index is selectable, and an invalid one has no flags |
| LabelList.FirstRow | views/label_list_table_model.py:112-118 | reference definition: the first position carrying the uid, or -1 exactly when no row carries it |
| LabelList.LabelListTableModel.GetRow | views/label_list_table_model.py:112-118 | returns the position of the first row with the uid, or -1 exactly when there is none |
| LabelList.LabelListTableModel.GetData | views/label_list_table_model.py:120-124 | returns the first row with the uid (the row `get_row` finds), or None exactly when there is none |
| LabelList.LabelListTableModel.RemoveRow | views/label_list_table_model.py:98-103 | deletes only the first row with the uid and keeps the others in order; an unknown uid changes nothing |
| LabelList.FirstRowOfDistinct | views/label_list_table_model.py:112-118 | when the uids are distinct, the row carrying a uid is the one `get_row` finds |
| LabelList.RemoveFirstDistinct | views/label_list_table_model.py:98-103 | with distinct uids, after removal no row carries the uid, the uids stay distinct, and every other uid is found exactly when it was before |
| LabelList.FirstRowAppend | views/label_list_table_model.py:13-22 | after an append, a uid resolves to its earlier row if it had one, else to the new row if the new row carries it, else to nothing |
| LabelList.AppendFreshDistinct | views/label_list_table_model.py:13-22 | appending a row with a new uid keeps the uids distinct |
| LabelList.LabelListTableModel.ToggleVisibleAll | views/label_list_table_model.py:105-110 | as written: the table is left exactly as it was (see Findings) |
| LabelList.LabelListTableModel.ToggleVisibleAllIntended | views/label_list_table_model.py:105-110 | corrected: every row's visibility becomes the requested one and nothing else changes |
| LabelList.LastMatch | views/label_list_table_model.py:140-146 | reference definition: the last position whose item equals the value, or -1 exactly when none does |
| LabelList.LabelListTableComboBoxDelegate.constructor | views/label_list_table_model.py:129-131 | the delegate offers the given item list |
| LabelList.LabelListTableComboBoxDelegate.SetEditorData | views/label_list_table_model.py:140-146 | the editor selects the last position whose item equals the cell's value; when none does, the previous selection is kept |
| LabelList.LabelListTableComboBoxDelegate.SetModelData | views/label_list_table_model.py:148-150 | an empty item list raises `IndexError` exactly, and nothing is written; otherwise the item at the combo box's index (the last item for index -1, as Python reads `item_list[-1]`) is written into the cell with the edit role; an invalid index changes nothing; the highlighted row is kept |
| FileList.FileListTableModel.constructor | views/file_list_table_model.py:10-11 | the file table starts empty with its three column headers |
| FileList.FileListTableModel.Append | views/file_list_table_model.py:13-17 | exactly one row `{id, has_gt, file_name}` is added at the end |
| FileList.FileListTableModel.Data | views/file_list_table_model.py:19-34 | an invalid index gives nothing; the display role shows the id in column 0, the file name in column 2 and an empty text elsewhere; the check-state role gives column 1's check box; other roles defer to the highlight rule |
| FileList.FileListTableModel.CheckStateOf | views/file_list_table_model.py:50-56 | only column 1 has a check state, Checked exactly when `has_gt` holds |
| FileList.FileListTableModel.SetData | views/file_list_table_model.py:36-48 | answers True exactly for a valid index with the check-state role on column 1 (which sets `has_gt` to `value == Checked`) or with the edit role (which changes nothing); everything else answers False and changes nothing |
| FileList.FileListTableModel.Flags | views/file_list_table_model.py:58-63 | only column 1 is flagged checkable and editable |
| CategoryList.CategoryListTableModel.constructor | views/category_list_table_model.py:7-10 | the category table starts empty with the headers "ID" and "Category" |
| CategoryList.CategoryListTableModel.ColumnCount | views/category_list_table_model.py:18-19 | the column count is the number of header labels, which the constructor makes 2 |
| CategoryList.CategoryListTableModel.RowCount | views/category_list_table_model.py:21-22 | the row count is the number of rows held, 0 exactly when the table is empty, and one more after each append |
| CategoryList.CategoryListTableModel.HeaderData | views/category_list_table_model.py:13-16 | the horizontal display role gives the header label of `section`; every other role or orientation falls back to the default header |
| CategoryList.CategoryListTableModel.Clear | views/category_list_table_model.py:24-26 | the table becomes empty and its row count 0 |
| CategoryList.CategoryListTableModel.Append | views/category_list_table_model.py:28-31 | exactly one row `{id, category}` is added at the end |
| CategoryList.CategoryListTableModel.Data | views/category_list_table_model.py:33-46 | display data is the id in column 0, the name in column 1 and an empty text in other columns; an invalid index or any other role gives nothing |
| CategoryList.CategoryListTableModel.SetData | views/category_list_table_model.py:48-49 | always answers False, and the table is unchanged |
| StringBundle.SplitWithout | libs/string_bundle.py:32 | a line without `=` splits into itself alone |
| StringBundle.SplitAtFirst | libs/string_bundle.py:32 | splitting on `=` yields the text before the first `=`, then the pieces of the rest |
| StringBundle.JoinSplit | libs/string_bundle.py:32-34 | joining the pieces of a split with `=` restores the text, so later `=` characters are preserved in the value |
| StringBundle.ParseLineCutsAtFirstSeparator | libs/string_bundle.py:31-34 | the key is the stripped text before the first `=`; the value is all text after it, stripped of white space and then of quotes; a line without `=` gives the stripped line as key and an empty value |
| StringBundle.LoadedLastWins | libs/string_bundle.py:30-35 | a key's stored message comes from its last line |
| StringBundle.LoadedKeepsOthers | libs/string_bundle.py:30-35 | a key that no line carries keeps its earlier message, or stays absent |
| StringBundle.StringBundle.constructor | libs/string_bundle.py:8-10 | the map holds the parsed lines of the properties file, or is empty when the file is missing |
| StringBundle.StringBundle.GetString | libs/string_bundle.py:16-18 | the id must be present, and the result is one of the stored messages |
| StringBundle.StringBundle.Load | libs/string_bundle.py:20-37 | a missing file leaves the map unchanged; otherwise the lines are applied in order, each setting its key to its value |
| Palette.ColorPalette | views/create_palette.py:4-95 | the returned map has exactly the keys 1 to 10 and every component is in 0..255; the list has ten entries with ids 1 to 10, and each map entry is the RGB of the list entry with that id; id 3 is (139,69,19) and id 5 is (255,0,0) |
| Categories.FirstWithName | main.py:1020-1022 | reference definition: the first entry with the name, or -1 exactly when no entry has it |
| Categories.RecordWellFormed | main.py:1021-1025 | recording an entry with a new name keeps the name→entry map, the id→name map and the names list consistent |
| Categories.RecordAllNames | main.py:1020-1025 | after each step of the loop, the names kept are exactly the names seen so far |
| Categories.RecordFirstEntries | main.py:1020-1025 | after each step of the loop, each name maps to its first entry; later duplicates are skipped |
| Categories.RecordInFirstOrder | main.py:1020-1025 | after each step of the loop, the names list is in order of first occurrence |
| Categories.BuildFirstOccurrences | main.py:1015-1026 | loading gives a consistent taxonomy whose names are the input's distinct names, in first-occurrence order, each mapped to its first entry |
| Categories.ReachableById | main.py:1023-1024 | a kept entry whose id no other kept entry shares is found again by its id, under its own name |
| Categories.LoadTaxonomy | main.py:1037-1046 | the loop's result is the taxonomy of first occurrences, built from nothing |
| Categories.FirstMatchFrom | main.py:845-850 | reference definition of the search: the first position from `i` whose supercategory is "all", the primary name or the primary supercategory; -1 exactly when none matches |
| Categories.DefaultChoiceRule | main.py:843-859 | a given category is kept; with none given, an empty names list gives none; otherwise the first name in load order whose supercategory matches is chosen, and the first name when nothing matches |
| Categories.DefaultCategory | main.py:843-850 | the loop with `break` chooses what the default rule states |
| Annotator.GenerateColor | main.py:737-745 | as written: with no category loaded, the text colour; an unknown name raises; an id above every palette key gives the text colour; a palette colour is always the palette entry of the category's id with alpha 200 |
| Annotator.GenerateColorIntended | main.py:737-745 | corrected: the palette colour (alpha 200) exactly when the category's id is a palette key, the text colour otherwise; an error exactly when categories are loaded and the name is unknown |
| Annotator.GenerateColorAgrees | main.py:737-745 | whenever the code as written gives a colour, the corrected rule gives the same one |
| Annotator.GenerateColorMissesSmallIds | main.py:737-745 | with palette keys 1 to 10, a category id of 0 or below makes the written code look up a missing key, while the corrected rule gives the text colour |
| Annotator.GenerateColorPersonZero | main.py:737-745 | a category file whose one category "person" has id 0 raises as written |
| Annotator.LevelName | main.py:1312-1324 | the second or third name is None when the key is absent, the taxonomy is empty or the id is null; else it is the name under that id; a lookup error occurs exactly for an unknown id |
| Annotator.Shape.constructor | main.py:1290-1291 | a new shape carries the category and tracking id, with no points and no colour yet |
| Annotator.CategoryRowsListTaxonomy | main.py:1019-1026 | the category table lists the loaded taxonomy: one row per kept name in load order, with the id of that name's entry |
| Annotator.InverseRegister | main.py:837-839 | registering a new uid for a new shape keeps the two maps inverse to each other |
| Annotator.InverseUnregister | main.py:867-870 | deleting a registered shape and its uid keeps the two maps inverse |
| Annotator.TracksRegister | main.py:837-862 | a new uid with its row appended keeps the label rows in step with the registry, and the uid resolves to the new last row |
| Annotator.TracksUnregister | main.py:864-870 | deleting the uid from the registry and its row from the table keeps them in step, and the uid no longer resolves |
| Annotator.RegisteredStep | main.py:1329-1335 | each loaded shape stays registered under its uid after the next one is added |
| Annotator.UnusedStep | main.py:837-838 | registering one fresh uid keeps the later fresh uids unused |
| Annotator.ExtendsByStep | main.py:1329-1335 | registering the next fresh uid keeps every earlier registration and adds only that uid |
| Annotator.MainWindow.constructor | main.py:48-76 | the window starts with no category set, empty taxonomies, no shapes, empty tables, no dataset or image, and the palette with keys 1 to 10 (from main.py:126) |
| Annotator.MainWindow.NoShapesIffNoRows | main.py:490-491 | with the table in step, there are no shapes exactly when the label table is empty |
| Annotator.MainWindow.AddLabel | main.py:834-862 | the new uid maps to the shape and the shape to the uid; the maps stay inverse and in step with the table; exactly one row is appended with the given fields and the second and third categories of the default rule; the uid resolves to that row; nothing else changes |
| Annotator.MainWindow.RemoveLabel | main.py:864-870 | no shape changes nothing; an unregistered shape raises; otherwise the uid leaves both maps and its first row leaves the table, and looking the uid up finds nothing; the maps stay inverse and in step |
| Annotator.MainWindow.ResetState | main.py:523-528 | the label table and both maps become empty; the taxonomies and paths are kept |
| Annotator.MainWindow.ClearBeforeFilter | main.py:1094-1098 | before the image list is filtered, the label table and both maps become empty and no image is open; the taxonomies, the dataset root and the highlighted row are kept |
| Annotator.MainWindow.SetCategory | main.py:1012-1029 | the set name becomes the file's name; the primary taxonomy is replaced by the file's first occurrences and the category table lists them; the category column's delegate offers the new names; the other taxonomies and the shapes are unchanged |
| Annotator.MainWindow.SetSecondCategory | main.py:1031-1050 | the set name is taken from the file only when none is set; a file without `name` then raises `KeyError` exactly, and nothing changes; otherwise the second taxonomy is replaced by the file's first occurrences and column 5's delegate offers them; the other taxonomies, the shapes and the paths are unchanged |
| Annotator.MainWindow.SetThirdCategory | main.py:1052-1071 | the set name is taken from the file only when none is set; a file without `name` then raises `KeyError` exactly, and nothing changes; otherwise the third taxonomy is replaced by the file's first occurrences and column 6's delegate offers them; the other taxonomies, the shapes and the paths are unchanged |
| Annotator.MainWindow.OpenCategoryFile | main.py:897-916 | with an image open, the shapes and label rows are cleared first; a payload without `category` is rejected and leaves the taxonomy, set name and category table unchanged; one without `name` raises before loading; otherwise the primary taxonomy and table are loaded from the file and the category column's delegate offers the new names; the second and third taxonomies, the dataset and image paths, the open image and the highlighted row are unchanged |
| Annotator.MainWindow.SaveLabelList | main.py:1343-1400 | without a category set or dataset, the matching error is shown; without an image or annotation path, nothing is done; otherwise one record per label row in table order, with the row's ids, box and category ids; a failed lookup raises at the first row that fails, and then no records are written |
| Annotator.MainWindow.LoadAnnotation | main.py:1286-1335 | a record loads exactly when its category id, tracking id and second/third ids resolve and it has a box (colouring with the corrected rule, so a category id of 0 or below also loads, where the source raises at main.py:743; see Findings); an unknown category id raises first, then a missing tracking id, and a record that passes both but has no box stops the load silently; a loaded record's shape carries the record's tracking id (`video_ins_id` before `track_id`), has the box's four corners as points and the corrected rule's colour as its line colour, is registered under the uid, and appends the row the record describes; otherwise nothing changes; the highlighted row is kept |
| Annotator.MainWindow.OpenAnnotationFile | main.py:1285-1335 | records load in order under their uids until one does not decode; the load completes exactly when all do; the label table gains exactly the rows of the loaded records; every loaded shape is fresh and registered under its uid; every earlier registration is kept and no other uid is added; the maps stay inverse and in step; the taxonomies, paths, open image and highlighted row are unchanged |
| BBox.LeastIsMinimum | main.py:1363-1371 | over a non-empty shape, the running minimum is a coordinate of some point and at most every point's |
| BBox.GreatestIsMaximum | main.py:1363-1371 | over a non-empty shape, the running maximum is a coordinate of some point and at least every point's |
| BBox.BoundingBoxExtents | main.py:1363-1392 | for a non-empty shape, `x`, `y` are the least coordinates and `x+w-1`, `y+h-1` the greatest, each attained by a point, so `w, h >= 1` and every point lies in the box |
| BBox.EncodeBBox | main.py:1363-1392 | the loop computes the bounding box; an empty shape gives the sentinel box |
| BBox.Corners | main.py:1296-1305 | decoding gives four points: `(x,y)`, `(x+w-1,y)`, `(x+w-1,y+h-1)`, `(x,y+h-1)` |
| BBox.DecodeThenEncode | main.py:1296-1305 | encoding the corners of a box with `w, h >= 1` gives that box back |
| BBox.EncodeDecodeEncode | main.py:1363-1392 | saving, loading and saving again writes the first box |
| Dataset.IndexedPathsDistinct | main.py:1209-1211 | when every record's index is its path's position, the paths are distinct |
| Dataset.PointsBackSnoc | main.py:1209-1211 | appending a path with its record stamped at its position keeps every record pointing at a position holding its path |
| Dataset.PointsBackIndexed | main.py:1209-1211 | with distinct paths, pointing back means every record's index is exactly its path's position |
| Dataset.RestampedStep | main.py:1115-1118 | re-stamping one record changes only its index |
| Dataset.LoadImageList | main.py:1197-1215 | keeps the manifest records whose file exists, in manifest order; each path is the root joined with the file name; the file table lists id, flag and name; every record points back to its position, and with distinct paths its index is its position |
| Dataset.KeepIndexes | main.py:1082-1091 | the kept positions are increasing, and their paths are exactly the paths in the directory, in order |
| Dataset.InDirectoryMembers | main.py:1085-1091 | every kept path is a listed path whose directory is the chosen one |
| Dataset.InDirectoryKeepsDistinct | main.py:1085-1091 | filtering keeps distinct paths distinct |
| Dataset.ListedRowsAt | main.py:1121-1122 | file table row `i` holds the id, `has_gt` flag and file name of kept path `i` |
| Dataset.StampedRestamped | main.py:1115-1118 | the rebuilt dictionary holds the old records with only their index changed |
| Dataset.StampedPointsBack | main.py:1115-1119 | in the rebuilt dictionary, every record points back to its new position |
| Dataset.StampKept | main.py:1110-1122 | the second loop lists the kept paths in order, stamps each record with its new position and lists it in the file table |
| Dataset.FilterImageList | main.py:1083-1122 | the new list is the old paths in the chosen directory, in order; the file table lists their records; records change only in their index; every record points back; an indexed list stays indexed (the window resets at main.py:1094-1098 are `Annotator.MainWindow.ClearBeforeFilter`) |
| Dataset.RefreshedAt | main.py:1423-1425 | refreshing keeps the dictionary's keys and changes only the `has_gt` flag of listed paths, which takes the file table's value |
| Dataset.SavedImagesAt | main.py:1419-1426 | written record `i` is the record of path `i` without its index, with the file table's flag |
| Dataset.SaveDatasetImages | main.py:1417-1426 | the loop writes the saved records and refreshes the live records |
| Dataset.SaveDatasetImagesMeaning | main.py:1417-1426 | one record per listed path in order, without index and with the flag of its file table row; live records change only in flags of listed paths; on an indexed list record `i` takes row `i`'s flag |
| Dataset.NextImage | main.py:1601-1616 | an empty list opens nothing; with no image open, position 0 opens exactly when its path is non-empty; with an image open, index + 1 opens exactly when it is below the length and its path is non-empty |
| Dataset.PreviousImage | main.py:1575-1590 | an empty list opens nothing; with no image open, position 0 opens exactly when its path is non-empty; with an image open, index - 1 opens exactly when it is at least 0 and its path is non-empty |
| Dataset.NavigationSteps | main.py:1575-1616 | on an indexed list, from position `k` the next step opens `k+1` exactly when it exists with a non-empty path, and the previous step opens `k-1` likewise |
| Dataset.NextThenPrevious | main.py:1575-1616 | a next step followed by a previous step returns to the same image |

## Left out

- Qt widgets, docks, menus, actions and signals (`layoutChanged`, `dataChanged`) are not modelled, and neither are message and file dialogs. Error messages appear only as the `Rejected` text.
- JSON reading and writing (`json.load`, `json.dump`) and the writes of the manifest, annotation file and palette file are left out. The model works on the decoded values and returns the records that would be written.
- `os.path.exists`, `os.makedirs` and `QFile` are replaced by parameters. File existence is the set `onDisk`, and a properties file is `Missing` or its lines.
- `uuid.uuid4()` is replaced by caller-supplied fresh uids: a uid not yet registered, or a sequence of distinct unused uids. `generate_annotation_path` is replaced by its result, passed to `SaveLabelList` as a parameter.
- `generate_color_by_text` hashes the text and divides in floating point. It becomes the opaque colour `ColorOfText(text)`.
- `QPointF` coordinates are taken to be integers, as annotation files store them.
- The canvas, zoom, painting and `paintLabel` are not modelled, because `views/canvas.py` and `views/shape.py` are not part of this model.
- `new_shape` and the category chooser dialog are not modelled. They only feed `add_label`, which is modelled.
- `set_dirty`, `may_continue`, auto-saving and `set_clean` are left out: they are dialog and action state.
- The second and third category list tables are not modelled; their classes are not among the modelled files.
- Re-opening the current image at the end of `open_category_file` (main.py:921-922) is left out: it is canvas loading.
- The file dialog, manifest validation, root-directory rewrite and message of `open_dataset_file` are left out. Only its image loop is modelled, as `Dataset.LoadImageList`. Its reset at main.py:1169-1170 empties both uid/shape maps but not the label table, so when no image is opened afterwards (an empty manifest, where `open_next_image` returns at once) the label rows name uids that are no longer registered; the model has no operation that leaves the window in that state.
- The `open_next_image` call and the `dataset_info_path` update of `filter_dataset_dialog` (main.py:1123-1128) are left out: they are navigation (modelled separately) and a filesystem path.
- Filtering shares record objects between `images_dict_temp` and `images_dict` (main.py:1115-1118), so the re-stamping also changes the old dictionary's records. The model rebuilds the new dictionary as a value and does not show that aliasing.
- The class-level `table_data`, `ids_to_messages_dict` and window dictionaries are shared between instances in the source. Each model instance owns its own state.
- `save_dataset`'s `self.data is None` guard is not modelled: `SaveDatasetImages` is the image loop for a loaded manifest.
- Python's negative indexing is not modelled. Table indexes are within the table (`InRange`), as Qt hands them out.
- Annotation records without `id`, and category-file entries without `name`, `id` or `supercategory`, are not modelled: the datatypes always carry these fields.
- Annotator.MainWindow.OpenAnnotationFile: does not state the shapes' points or colours itself; `Annotator.MainWindow.LoadAnnotation` states them for each record.
- Annotator.MainWindow.AddLabel: requires a shape that is not yet registered and a category name that is loaded. The source would overwrite the map entry, or raise `KeyError`.
- Annotator.MainWindow.LoadAnnotation: colours the shape with the corrected rule, `Annotator.GenerateColorIntended` (see Findings). So a record whose category id is 0 or below loads in the model, while the source raises `KeyError` at main.py:743 and the load stops there. `Annotator.GenerateColorAgrees` shows that both rules give the same colour wherever the source's rule succeeds.
- Annotator.MainWindow.OpenAnnotationFile: for the same reason, loads past a record whose category id is 0 or below, where the source stops.
- Categories.ReachableById: requires the entry's id to be unique among the kept entries. A later entry with a new name and the same id overwrites the id→name entry.
- Dataset.LoadImageList: states that every index is its path's position only for distinct paths. When two manifest records join to the same path, the later one overwrites the earlier one's dictionary entry; the model states the weaker "points back" property for that case.
- StringBundle.StringBundle.GetString: states only that the result is a stored message. Which message it is follows from `StringBundle.LoadedLastWins`.
- StringBundle.StringBundle.Load: a file that exists but fails to open is not modelled. The source then reads from an unbound stream.

## Findings

| source | as written | input that shows it | evidently intended | confidence | as-written member | corrected member |
|---|---|---|---|---|---|---|
| views/label_list_table_model.py:105-110 | `toggle_visible_all` writes the check state to column 0 with the edit role, and the edit branch of `setData` ignores column 0 | any table with a hidden row and `toggle_visible_all(True)`: the row stays hidden | a check-state write, so that every row's visibility becomes the requested one | not executed | LabelList.LabelListTableModel.ToggleVisibleAll | LabelList.LabelListTableModel.ToggleVisibleAllIntended |
| main.py:737-745 | `generate_color` indexes the palette whenever the id is at most the largest key, but the palette has only the keys 1 to 10 | a category file whose category "person" has id 0: `self.palette[0]` raises `KeyError` | use the palette only when the id is one of its keys, else the text colour | not executed | Annotator.GenerateColorPersonZero | Annotator.GenerateColorIntended |
