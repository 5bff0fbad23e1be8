/** The image list of main.py: `open_dataset_file` and `filter_dataset_dialog`
    build `image_paths` and `images_dict` so that every record's `index` is
    its path's position, the navigation steps that index, and `save_dataset`
    writes the records back without it. Filesystem existence is a set of
    existing paths. */
module Dataset {
  import opened Wrappers
  import opened FileList

  /** An image record of the dataset manifest; `index` is present only once
      the record has been placed in the image list. */
  datatype ImageRecord = ImageRecord(id: int, fileName: string, hasGt: bool, index: Option<int>, videoId: Option<int>)

  datatype Video = Video(id: int, name: string)

  /** The dataset manifest: `info.root_dir`, `images` and `videos`, each of which may be absent. */
  datatype Manifest = Manifest(rootDir: Option<string>, images: Option<seq<ImageRecord>>, videos: Option<seq<Video>>)

  /** The image a navigation step opens: its position and its path. */
  datatype Target = Target(position: int, path: string)

  /** POSIX `os.path.join(a, b)`. */
  function JoinPath(a: string, b: string): string
  {
    if |b| > 0 && b[0] == '/' then b
    else if a == "" || a[|a| - 1] == '/' then a + b
    else a + "/" + b
  }

  /** `s.replace('\\', '/')`. */
  function ToSlashes(s: string): (r: string)
    ensures |r| == |s|
  {
    if s == [] then [] else [if s[0] == '\\' then '/' else s[0]] + ToSlashes(s[1..])
  }

  function LastSlash(s: string): (k: int)
    ensures -1 <= k < |s|
  {
    if s == [] then -1 else if s[|s| - 1] == '/' then |s| - 1 else LastSlash(s[..|s| - 1])
  }

  predicate AllSlashes(s: string)
  {
    forall i :: 0 <= i < |s| ==> s[i] == '/'
  }

  function RStripSlashes(s: string): string
  {
    if s != [] && s[|s| - 1] == '/' then RStripSlashes(s[..|s| - 1]) else s
  }

  /** POSIX `os.path.dirname(p)`: everything up to the last slash, trailing
      slashes removed unless it is all slashes. */
  function Dirname(p: string): string
  {
    var head := p[..LastSlash(p) + 1];
    if head != [] && !AllSlashes(head) then RStripSlashes(head) else head
  }

  /** The test of `filter_dataset_dialog`: the path's directory, with
      backslashes then made slashes, is `dirpath`. */
  predicate InDir(path: string, dirpath: string)
  {
    ToSlashes(Dirname(path)) == dirpath
  }

  /** The invariant of the image list: every path's record carries that
      path's position as its index, and the dictionary holds no other path. */
  ghost predicate Indexed(paths: seq<string>, dict: map<string, ImageRecord>)
  {
    && (forall i :: 0 <= i < |paths| ==> paths[i] in dict && dict[paths[i]].index == Some(i))
    && (forall p :: p in dict ==> p in paths)
  }

  /** Distinct paths are a consequence of the invariant. */
  lemma IndexedPathsDistinct(paths: seq<string>, dict: map<string, ImageRecord>)
    requires Indexed(paths, dict)
    ensures Distinct(paths)
  {
    forall i, j | 0 <= i < j < |paths| ensures paths[i] != paths[j] {
      assert dict[paths[i]].index == Some(i) && dict[paths[j]].index == Some(j);
    }
  }

  /** What always holds of the dictionary built from the list, even when a
      path occurs twice: each record's index is a position holding its path. */
  ghost predicate PointsBack(paths: seq<string>, dict: map<string, ImageRecord>)
  {
    && (forall p {:trigger p in dict} :: p in dict <==> p in paths)
    && (forall p :: p in dict ==> dict[p].index.Some? && 0 <= dict[p].index.value < |paths| && paths[dict[p].index.value] == p)
  }

  lemma PointsBackSnoc(paths: seq<string>, dict: map<string, ImageRecord>, path: string, rec: ImageRecord)
    requires PointsBack(paths, dict)
    ensures PointsBack(paths + [path], dict[path := rec.(index := Some(|paths|))])
  {
    var paths', dict' := paths + [path], dict[path := rec.(index := Some(|paths|))];
    forall p ensures p in dict' <==> p in paths' {
      assert p in paths' <==> p in paths || p == path;
    }
    forall p | p in dict'
      ensures dict'[p].index.Some? && 0 <= dict'[p].index.value < |paths'| && paths'[dict'[p].index.value] == p
    {
      if p != path {
        assert paths'[dict[p].index.value] == paths[dict[p].index.value];
      }
    }
  }

  /** Every record of `newDict` is the record of `dict` under the same path,
      up to its index. */
  ghost predicate Restamped(newDict: map<string, ImageRecord>, dict: map<string, ImageRecord>)
  {
    forall p :: p in newDict ==> p in dict && newDict[p].(index := dict[p].index) == dict[p]
  }

  lemma RestampedStep(newDict: map<string, ImageRecord>, dict: map<string, ImageRecord>, path: string, index: Option<int>)
    requires Restamped(newDict, dict) && path in dict
    ensures Restamped(newDict[path := dict[path].(index := index)], dict)
  {
  }

  /** With distinct paths, pointing back is the invariant itself. */
  lemma PointsBackIndexed(paths: seq<string>, dict: map<string, ImageRecord>)
    requires PointsBack(paths, dict) && Distinct(paths)
    ensures Indexed(paths, dict)
  {
    forall i | 0 <= i < |paths| ensures paths[i] in dict && dict[paths[i]].index == Some(i) {
      assert paths[i] in dict;
      var k := dict[paths[i]].index.value;
      assert paths[k] == paths[i];
    }
  }

  /** The manifest records whose file exists under `root`, in manifest order. */
  function Existing(root: string, images: seq<ImageRecord>, onDisk: set<string>): seq<ImageRecord>
  {
    if images == [] then []
    else
      var init := Existing(root, images[..|images| - 1], onDisk);
      var last := images[|images| - 1];
      if JoinPath(root, last.fileName) in onDisk then init + [last] else init
  }

  /** The image-list loop of `open_dataset_file`: keeps the records whose
      file exists, stamps each with its position and lists it in the file table. */
  method LoadImageList(root: string, images: seq<ImageRecord>, onDisk: set<string>)
    returns (imagePaths: seq<string>, imagesDict: map<string, ImageRecord>, fileRows: seq<FileRow>)
    ensures var kept := Existing(root, images, onDisk);
            && |imagePaths| == |kept| == |fileRows|
            && (forall i :: 0 <= i < |kept| ==> imagePaths[i] == JoinPath(root, kept[i].fileName))
            && (forall i :: 0 <= i < |kept| ==> fileRows[i] == FileRow(kept[i].id, kept[i].hasGt, kept[i].fileName))
            && (forall p :: p in imagesDict ==> exists i :: 0 <= i < |kept| && imagesDict[p] == kept[i].(index := Some(i)))
    ensures PointsBack(imagePaths, imagesDict)
    ensures Distinct(imagePaths) ==> Indexed(imagePaths, imagesDict)
  {
    imagePaths, imagesDict, fileRows := [], map[], [];
    ghost var done := 0;
    for n := 0 to |images|
      invariant var kept := Existing(root, images[..n], onDisk);
                && |imagePaths| == |kept| == |fileRows|
                && (forall i :: 0 <= i < |kept| ==> imagePaths[i] == JoinPath(root, kept[i].fileName))
                && (forall i :: 0 <= i < |kept| ==> fileRows[i] == FileRow(kept[i].id, kept[i].hasGt, kept[i].fileName))
                && (forall p :: p in imagesDict ==> exists i :: 0 <= i < |kept| && imagesDict[p] == kept[i].(index := Some(i)))
      invariant PointsBack(imagePaths, imagesDict)
    {
      assert images[..n + 1][..n] == images[..n];
      var dataRow := images[n];
      var path := JoinPath(root, dataRow.fileName);
      if path !in onDisk {
        continue;
      }
      dataRow := dataRow.(index := Some(|imagePaths|));
      imagesDict := imagesDict[path := dataRow];
      imagePaths := imagePaths + [path];
      fileRows := fileRows + [FileRow(imagesDict[path].id, imagesDict[path].hasGt, imagesDict[path].fileName)];
    }
    assert images[..|images|] == images;
    if Distinct(imagePaths) {
      PointsBackIndexed(imagePaths, imagesDict);
    }
  }

  /** The first `n` paths whose directory, with backslashes then made
      slashes, is `dirpath`, in their order. */
  function InDirectory(paths: seq<string>, dirpath: string, n: nat): (r: seq<string>)
    requires n <= |paths|
    ensures |r| <= n
  {
    if n == 0 then []
    else
      var init := InDirectory(paths, dirpath, n - 1);
      if InDir(paths[n - 1], dirpath) then init + [paths[n - 1]] else init
  }

  /** The first loop of `filter_dataset_dialog`: the positions to keep. */
  method KeepIndexes(paths: seq<string>, dirpath: string) returns (keep: seq<int>)
    ensures |keep| == |InDirectory(paths, dirpath, |paths|)|
    ensures forall i :: 0 <= i < |keep| ==> 0 <= keep[i] < |paths| && paths[keep[i]] == InDirectory(paths, dirpath, |paths|)[i]
    ensures forall i, j :: 0 <= i < j < |keep| ==> keep[i] < keep[j]
  {
    keep := [];
    for idx := 0 to |paths|
      invariant |keep| == |InDirectory(paths, dirpath, idx)|
      invariant forall i :: 0 <= i < |keep| ==> 0 <= keep[i] < idx && paths[keep[i]] == InDirectory(paths, dirpath, idx)[i]
      invariant forall i, j :: 0 <= i < j < |keep| ==> keep[i] < keep[j]
    {
      if InDir(paths[idx], dirpath) {
        keep := keep + [idx];
      }
    }
  }

  /** Filtering keeps only paths of the list whose directory is `dirpath`. */
  lemma {:induction false} InDirectoryMembers(paths: seq<string>, dirpath: string, n: nat)
    requires n <= |paths|
    ensures forall i :: 0 <= i < |InDirectory(paths, dirpath, n)| ==>
              InDir(InDirectory(paths, dirpath, n)[i], dirpath) &&
              exists j :: 0 <= j < n && paths[j] == InDirectory(paths, dirpath, n)[i]
  {
    if n > 0 {
      InDirectoryMembers(paths, dirpath, n - 1);
      var r := InDirectory(paths, dirpath, n);
      if InDir(paths[n - 1], dirpath) {
        assert r[|r| - 1] == paths[n - 1];
      }
    }
  }

  lemma {:induction false} InDirectoryKeepsDistinct(paths: seq<string>, dirpath: string, n: nat)
    requires Distinct(paths) && n <= |paths|
    ensures Distinct(InDirectory(paths, dirpath, n))
  {
    if n > 0 {
      InDirectoryKeepsDistinct(paths, dirpath, n - 1);
      InDirectoryMembers(paths, dirpath, n - 1);
      var init := InDirectory(paths, dirpath, n - 1);
      forall i | 0 <= i < |init| ensures init[i] != paths[n - 1] {
        var j :| 0 <= j < n - 1 && paths[j] == init[i];
      }
    }
  }

  /** Every one of `paths` has a record in `dict`. */
  ghost predicate AllIn(paths: seq<string>, dict: map<string, ImageRecord>)
  {
    forall i :: 0 <= i < |paths| ==> paths[i] in dict
  }

  /** The file table rows of the first `n` of `paths`. */
  function ListedRows(dict: map<string, ImageRecord>, paths: seq<string>, n: nat): (rows: seq<FileRow>)
    requires n <= |paths| && AllIn(paths, dict)
    ensures |rows| == n
  {
    if n == 0 then []
    else
      var rec := dict[paths[n - 1]];
      ListedRows(dict, paths, n - 1) + [FileRow(rec.id, rec.hasGt, rec.fileName)]
  }

  /** Row `i` lists the id, `has_gt` flag and file name of path `i`. */
  lemma {:induction false} ListedRowsAt(dict: map<string, ImageRecord>, paths: seq<string>, n: nat)
    requires n <= |paths| && AllIn(paths, dict)
    ensures forall i :: 0 <= i < n ==>
              ListedRows(dict, paths, n)[i] == FileRow(dict[paths[i]].id, dict[paths[i]].hasGt, dict[paths[i]].fileName)
  {
    if n > 0 {
      ListedRowsAt(dict, paths, n - 1);
    }
  }

  /** The dictionary the rebuild makes of the first `n` of `paths`: each
      with its record from `dict`, stamped with its position. */
  function Stamped(dict: map<string, ImageRecord>, paths: seq<string>, n: nat): map<string, ImageRecord>
    requires n <= |paths| && AllIn(paths, dict)
  {
    if n == 0 then map[]
    else Stamped(dict, paths, n - 1)[paths[n - 1] := dict[paths[n - 1]].(index := Some(n - 1))]
  }

  lemma {:induction false} StampedRestamped(dict: map<string, ImageRecord>, paths: seq<string>, n: nat)
    requires n <= |paths| && AllIn(paths, dict)
    ensures Restamped(Stamped(dict, paths, n), dict)
  {
    if n > 0 {
      StampedRestamped(dict, paths, n - 1);
      RestampedStep(Stamped(dict, paths, n - 1), dict, paths[n - 1], Some(n - 1));
    }
  }

  lemma {:induction false} StampedPointsBack(dict: map<string, ImageRecord>, paths: seq<string>, n: nat)
    requires n <= |paths| && AllIn(paths, dict)
    ensures PointsBack(paths[..n], Stamped(dict, paths, n))
  {
    if n > 0 {
      StampedPointsBack(dict, paths, n - 1);
      PrefixSnoc(paths, n - 1);
      PointsBackSnoc(paths[..n - 1], Stamped(dict, paths, n - 1), paths[n - 1], dict[paths[n - 1]]);
    }
  }

  lemma PrefixSnoc(s: seq<string>, n: nat)
    requires n < |s|
    ensures s[..n + 1] == s[..n] + [s[n]]
  {
  }

  /** The second loop of `filter_dataset_dialog`: the kept paths, in order,
      each re-stamped with its new position and listed in the file table. */
  method StampKept(paths: seq<string>, dict: map<string, ImageRecord>, keep: seq<int>, ghost target: seq<string>)
    returns (newPaths: seq<string>, newDict: map<string, ImageRecord>, fileRows: seq<FileRow>)
    requires |keep| == |target|
    requires forall i :: 0 <= i < |keep| ==> 0 <= keep[i] < |paths| && paths[keep[i]] == target[i]
    requires AllIn(target, dict)
    ensures newPaths == target
    ensures fileRows == ListedRows(dict, target, |target|)
    ensures newDict == Stamped(dict, target, |target|)
    ensures Restamped(newDict, dict)
    ensures PointsBack(newPaths, newDict)
  {
    newPaths, newDict, fileRows := [], map[], [];
    for n := 0 to |keep|
      invariant newPaths == target[..n]
      invariant fileRows == ListedRows(dict, target, n)
      invariant newDict == Stamped(dict, target, n)
    {
      var path := paths[keep[n]];
      var imageDict := dict[path];
      PrefixSnoc(target, n);
      newDict := newDict[path := imageDict.(index := Some(|newPaths|))];
      newPaths := newPaths + [path];
      fileRows := fileRows + [FileRow(imageDict.id, imageDict.hasGt, imageDict.fileName)];
    }
    assert target[..|keep|] == target;
    StampedRestamped(dict, target, |target|);
    StampedPointsBack(dict, target, |target|);
  }

  /** `filter_dataset_dialog`'s rebuild: the paths in `dirpath` are kept in
      their order and re-stamped with their new positions. */
  method FilterImageList(paths: seq<string>, dict: map<string, ImageRecord>, dirpath: string)
    returns (newPaths: seq<string>, newDict: map<string, ImageRecord>, fileRows: seq<FileRow>)
    requires forall i :: 0 <= i < |paths| ==> paths[i] in dict
    ensures newPaths == InDirectory(paths, ToSlashes(dirpath), |paths|)
    ensures forall i :: 0 <= i < |newPaths| ==> newPaths[i] in dict
    ensures |fileRows| == |newPaths|
    ensures forall i :: 0 <= i < |newPaths| ==>
              fileRows[i] == FileRow(dict[newPaths[i]].id, dict[newPaths[i]].hasGt, dict[newPaths[i]].fileName)
    ensures Restamped(newDict, dict)
    ensures PointsBack(newPaths, newDict)
    ensures Indexed(paths, dict) ==> Indexed(newPaths, newDict)
  {
    var dir := ToSlashes(dirpath);
    var keep := KeepIndexes(paths, dir);
    ghost var target := InDirectory(paths, dir, |paths|);
    InDirectoryMembers(paths, dir, |paths|);
    assert AllIn(target, dict);
    newPaths, newDict, fileRows := StampKept(paths, dict, keep, target);
    ListedRowsAt(dict, target, |target|);
    if Indexed(paths, dict) {
      IndexedPathsDistinct(paths, dict);
      InDirectoryKeepsDistinct(paths, dir, |paths|);
      PointsBackIndexed(newPaths, newDict);
    }
  }

  /** Every listed path has a record whose index names a file table row. */
  ghost predicate RowIndexed(paths: seq<string>, dict: map<string, ImageRecord>, fileRows: seq<FileRow>)
  {
    forall i :: 0 <= i < |paths| ==>
      paths[i] in dict && dict[paths[i]].index.Some? && 0 <= dict[paths[i]].index.value < |fileRows|
  }

  /** The `has_gt` flag the file table holds for the record of `p`. */
  function TableFlag(dict: map<string, ImageRecord>, fileRows: seq<FileRow>, p: string): bool
    requires p in dict && dict[p].index.Some? && 0 <= dict[p].index.value < |fileRows|
  {
    fileRows[dict[p].index.value].hasGt
  }

  /** The records `save_dataset` writes for the first `n` paths. */
  function SavedImages(paths: seq<string>, dict: map<string, ImageRecord>, fileRows: seq<FileRow>, n: nat): (images: seq<ImageRecord>)
    requires n <= |paths| && RowIndexed(paths, dict, fileRows)
    ensures |images| == n
  {
    if n == 0 then []
    else
      var p := paths[n - 1];
      SavedImages(paths, dict, fileRows, n - 1) + [dict[p].(index := None, hasGt := TableFlag(dict, fileRows, p))]
  }

  /** The live records once the first `n` paths have had their flag refreshed. */
  function Refreshed(paths: seq<string>, dict: map<string, ImageRecord>, fileRows: seq<FileRow>, n: nat): (r: map<string, ImageRecord>)
    requires n <= |paths| && RowIndexed(paths, dict, fileRows)
  {
    if n == 0 then dict
    else
      var p := paths[n - 1];
      var prev := Refreshed(paths, dict, fileRows, n - 1);
      prev[p := dict[p].(hasGt := TableFlag(dict, fileRows, p))]
  }

  /** Refreshing changes only the `has_gt` flag of the listed paths. */
  lemma {:induction false} RefreshedAt(paths: seq<string>, dict: map<string, ImageRecord>, fileRows: seq<FileRow>, n: nat)
    requires n <= |paths| && RowIndexed(paths, dict, fileRows)
    ensures Refreshed(paths, dict, fileRows, n).Keys == dict.Keys
    ensures forall p :: p in dict ==>
              Refreshed(paths, dict, fileRows, n)[p] ==
                if p in paths[..n] then dict[p].(hasGt := TableFlag(dict, fileRows, p)) else dict[p]
  {
    if n > 0 {
      RefreshedAt(paths, dict, fileRows, n - 1);
      assert paths[..n] == paths[..n - 1] + [paths[n - 1]];
    }
  }

  /** The written record of path `i` is its live record without the index,
      carrying the flag of its file table row. */
  lemma {:induction false} SavedImagesAt(paths: seq<string>, dict: map<string, ImageRecord>, fileRows: seq<FileRow>, n: nat)
    requires n <= |paths| && RowIndexed(paths, dict, fileRows)
    ensures forall i :: 0 <= i < n ==>
              SavedImages(paths, dict, fileRows, n)[i] == dict[paths[i]].(index := None, hasGt := TableFlag(dict, fileRows, paths[i]))
  {
    if n > 0 {
      SavedImagesAt(paths, dict, fileRows, n - 1);
    }
  }

  /** The image loop of `save_dataset`: each listed record is copied without
      its index and with `has_gt` taken from the file table row its index
      names; the live record gets the same `has_gt`. */
  method SaveDatasetImages(paths: seq<string>, dict: map<string, ImageRecord>, fileRows: seq<FileRow>)
    returns (images: seq<ImageRecord>, newDict: map<string, ImageRecord>)
    requires RowIndexed(paths, dict, fileRows)
    ensures images == SavedImages(paths, dict, fileRows, |paths|)
    ensures newDict == Refreshed(paths, dict, fileRows, |paths|)
  {
    images, newDict := [], dict;
    for n := 0 to |paths|
      invariant images == SavedImages(paths, dict, fileRows, n)
      invariant newDict == Refreshed(paths, dict, fileRows, n)
    {
      var path := paths[n];
      RefreshedAt(paths, dict, fileRows, n);
      var imageDict := newDict[path];
      var index := imageDict.index.value;
      imageDict := imageDict.(index := None);
      var hasGt := fileRows[index].hasGt;
      imageDict := imageDict.(hasGt := hasGt);
      newDict := newDict[path := newDict[path].(hasGt := hasGt)];
      images := images + [imageDict];
    }
  }

  /** What `save_dataset` writes: one record per listed path, in order, each
      without its index and with the flag of its file table row; the live
      records differ from the old ones only in the flags of the listed paths. */
  lemma SaveDatasetImagesMeaning(paths: seq<string>, dict: map<string, ImageRecord>, fileRows: seq<FileRow>)
    requires RowIndexed(paths, dict, fileRows)
    ensures |SavedImages(paths, dict, fileRows, |paths|)| == |paths|
    ensures forall i :: 0 <= i < |paths| ==>
              SavedImages(paths, dict, fileRows, |paths|)[i] ==
                dict[paths[i]].(index := None, hasGt := fileRows[dict[paths[i]].index.value].hasGt)
    ensures Refreshed(paths, dict, fileRows, |paths|).Keys == dict.Keys
    ensures forall p :: p in dict ==>
              Refreshed(paths, dict, fileRows, |paths|)[p] ==
                if p in paths then dict[p].(hasGt := fileRows[dict[p].index.value].hasGt) else dict[p]
    ensures Indexed(paths, dict) ==> forall i :: 0 <= i < |paths| ==>
              SavedImages(paths, dict, fileRows, |paths|)[i].hasGt == fileRows[i].hasGt &&
              SavedImages(paths, dict, fileRows, |paths|)[i].index.None?
  {
    SavedImagesAt(paths, dict, fileRows, |paths|);
    RefreshedAt(paths, dict, fileRows, |paths|);
    assert paths[..|paths|] == paths;
  }

  /** The image `open_next_image` opens: the first one when none is open,
      otherwise the one after the open image's index if there is one. A
      target whose path is empty is not opened. */
  function NextImage(paths: seq<string>, dict: map<string, ImageRecord>, current: Option<string>): (target: Option<Target>)
    requires current.Some? ==> current.value in dict && dict[current.value].index.Some? && 0 <= dict[current.value].index.value < |paths|
    ensures target.Some? ==> 0 <= target.value.position < |paths| && target.value.path == paths[target.value.position] != ""
    ensures paths == [] ==> target.None?
    ensures current.None? && paths != [] ==> target.Some? == (paths[0] != "") && (target.Some? ==> target.value.position == 0)
    ensures current.Some? && target.Some? ==> target.value.position == dict[current.value].index.value + 1
    ensures current.Some? ==>
              (target.Some? <==> var k := dict[current.value].index.value + 1; k < |paths| && paths[k] != "")
  {
    if |paths| == 0 then None
    else if current.None? then (if paths[0] != "" then Some(Target(0, paths[0])) else None)
    else
      var k := dict[current.value].index.value + 1;
      if k < |paths| && paths[k] != "" then Some(Target(k, paths[k])) else None
  }

  /** The image `open_previous_image` opens: the first one when none is open,
      otherwise the one before the open image's index if there is one. */
  function PreviousImage(paths: seq<string>, dict: map<string, ImageRecord>, current: Option<string>): (target: Option<Target>)
    requires current.Some? ==> current.value in dict && dict[current.value].index.Some? && 0 <= dict[current.value].index.value < |paths|
    ensures target.Some? ==> 0 <= target.value.position < |paths| && target.value.path == paths[target.value.position] != ""
    ensures paths == [] ==> target.None?
    ensures current.None? && paths != [] ==> target.Some? == (paths[0] != "") && (target.Some? ==> target.value.position == 0)
    ensures current.Some? && target.Some? ==> target.value.position == dict[current.value].index.value - 1
    ensures current.Some? ==>
              (target.Some? <==> var k := dict[current.value].index.value - 1; k >= 0 && paths[k] != "")
  {
    if |paths| == 0 then None
    else if current.None? then (if paths[0] != "" then Some(Target(0, paths[0])) else None)
    else
      var k := dict[current.value].index.value - 1;
      if k >= 0 && paths[k] != "" then Some(Target(k, paths[k])) else None
  }

  /** On an indexed list, from the image at position `k` the next step opens
      position `k + 1` exactly when it exists (with a non-empty path), and the
      previous step opens `k - 1` exactly when it exists. */
  lemma NavigationSteps(paths: seq<string>, dict: map<string, ImageRecord>, k: int)
    requires Indexed(paths, dict) && 0 <= k < |paths|
    ensures NextImage(paths, dict, Some(paths[k])) ==
              if k + 1 < |paths| && paths[k + 1] != "" then Some(Target(k + 1, paths[k + 1])) else None
    ensures PreviousImage(paths, dict, Some(paths[k])) ==
              if k >= 1 && paths[k - 1] != "" then Some(Target(k - 1, paths[k - 1])) else None
  {
    assert dict[paths[k]].index == Some(k);
  }

  /** A next step undone by a previous step returns to the same image. */
  lemma NextThenPrevious(paths: seq<string>, dict: map<string, ImageRecord>, k: int)
    requires Indexed(paths, dict) && 0 <= k < |paths| && paths[k] != ""
    requires NextImage(paths, dict, Some(paths[k])).Some?
    ensures var next := NextImage(paths, dict, Some(paths[k])).value;
            PreviousImage(paths, dict, Some(next.path)) == Some(Target(k, paths[k]))
  {
    NavigationSteps(paths, dict, k);
    NavigationSteps(paths, dict, k + 1);
  }
}
