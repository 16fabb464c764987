/** PointCloudData of main.py: the list of training (or test) samples
    of a ModelNet tree.

    The root directory holds one directory per class; each class
    directory holds the split directories ("train", "test"), and those
    hold the .off mesh files. The file system is a snapshot: a map from
    each directory path to its os.listdir() listing, in listing order;
    os.path.isdir(p) holds exactly when p is a key. */
module Dataset {
  import opened Wrappers
  import opened PyStr

  type FileSystem = map<string, seq<string>>

  // ---------------------------------------------------------------
  // Paths

  /** a / b on path objects: os.path.join(a, b) on POSIX. An absolute b
      replaces a; otherwise a separator is put between them unless a
      is empty or already ends with one. */
  function PathJoin(a: string, b: string): string {
    if b != [] && b[0] == '/' then b
    else if a == [] || a[|a| - 1] == '/' then a + b
    else a + "/" + b
  }

  predicate Relative(name: string) {
    name == [] || name[0] != '/'
  }

  /** Under one directory, different relative names give different
      paths. */
  lemma PathJoinInjective(a: string, b1: string, b2: string)
    requires Relative(b1) && Relative(b2)
    requires PathJoin(a, b1) == PathJoin(a, b2)
    ensures b1 == b2
  {
    var p := if a == [] || a[|a| - 1] == '/' then a else a + "/";
    assert PathJoin(a, b1) == p + b1 && PathJoin(a, b2) == p + b2;
    assert (p + b1)[|p|..] == b1 && (p + b2)[|p|..] == b2;
  }

  /** root_dir / Path(category) / folder */
  function CategoryDir(root: string, category: string, folder: string): string {
    PathJoin(PathJoin(root, category), folder)
  }

  /** What a real file system guarantees of a listing: no name twice,
      and names are relative. */
  predicate WellFormed(fs: FileSystem) {
    forall d :: d in fs ==> Distinct(fs[d]) && forall i :: 0 <= i < |fs[d]| ==> Relative(fs[d][i])
  }

  // ---------------------------------------------------------------
  // Class folders and labels

  /** [dir for dir in names if os.path.isdir(root / dir)] */
  function Dirs(fs: FileSystem, root: string, names: seq<string>): (r: seq<string>)
    ensures |r| <= |names|
  {
    if names == [] then []
    else if PathJoin(root, names[0]) in fs then [names[0]] + Dirs(fs, root, names[1..])
    else Dirs(fs, root, names[1..])
  }

  /** A name is kept exactly when it is listed and is a directory. */
  lemma {:induction false} DirsMember(fs: FileSystem, root: string, names: seq<string>, x: string)
    ensures x in Dirs(fs, root, names) <==> x in names && PathJoin(root, x) in fs
  {
    if names != [] {
      DirsMember(fs, root, names[1..], x);
      assert names == [names[0]] + names[1..];
    }
  }

  /** The filter keeps the order of a sorted listing. */
  lemma {:induction false} DirsSorted(fs: FileSystem, root: string, names: seq<string>)
    requires Sorted(names)
    ensures Sorted(Dirs(fs, root, names))
  {
    if names != [] {
      var rest := Dirs(fs, root, names[1..]);
      assert Sorted(names[1..]);
      DirsSorted(fs, root, names[1..]);
      if PathJoin(root, names[0]) in fs {
        forall j | 0 <= j < |rest| ensures LessEq(names[0], rest[j]) {
          DirsMember(fs, root, names[1..], rest[j]);
          assert rest[j] in rest;
          var i :| 0 <= i < |names[1..]| && names[1..][i] == rest[j];
          assert names[i + 1] == rest[j];
        }
      }
    }
  }

  /** The filter keeps a listing without repetitions free of them. */
  lemma {:induction false} DirsDistinct(fs: FileSystem, root: string, names: seq<string>)
    requires Distinct(names)
    ensures Distinct(Dirs(fs, root, names))
  {
    if names != [] {
      var rest := Dirs(fs, root, names[1..]);
      assert Distinct(names[1..]);
      DirsDistinct(fs, root, names[1..]);
      if PathJoin(root, names[0]) in fs {
        forall j | 0 <= j < |rest| ensures rest[j] != names[0] {
          DirsMember(fs, root, names[1..], rest[j]);
          assert rest[j] in rest;
          assert names[0] !in names[1..];
        }
        var all := [names[0]] + rest;
        forall i, j | 0 <= i < j < |all| ensures all[i] != all[j] {
          assert all[j] == rest[j - 1];
        }
      }
    }
  }

  /** The filter keeps exactly the names that are directories, and
      keeps their order and their distinctness. */
  lemma DirsSpec(fs: FileSystem, root: string, names: seq<string>)
    ensures forall x :: x in Dirs(fs, root, names) <==> x in names && PathJoin(root, x) in fs
    ensures Sorted(names) ==> Sorted(Dirs(fs, root, names))
    ensures Distinct(names) ==> Distinct(Dirs(fs, root, names))
  {
    forall x ensures x in Dirs(fs, root, names) <==> x in names && PathJoin(root, x) in fs {
      DirsMember(fs, root, names, x);
    }
    if Sorted(names) {
      DirsSorted(fs, root, names);
    }
    if Distinct(names) {
      DirsDistinct(fs, root, names);
    }
  }

  /** The class folders: the sub-directories of the root, in sorted
      order of their names. */
  function Folders(fs: FileSystem, root: string): (r: seq<string>)
    requires root in fs
  {
    Dirs(fs, root, SortStrings(fs[root]))
  }

  /** The class folders are exactly the listed names that are
      directories; they come sorted, and with a well-formed listing
      none comes twice. */
  lemma FoldersSpec(fs: FileSystem, root: string)
    requires root in fs
    ensures forall x :: x in Folders(fs, root) <==> x in fs[root] && PathJoin(root, x) in fs
    ensures Sorted(Folders(fs, root))
    ensures WellFormed(fs) ==> Distinct(Folders(fs, root))
  {
    var sorted := SortStrings(fs[root]);
    DirsSpec(fs, root, sorted);
    assert forall x :: x in sorted <==> x in multiset(sorted);
    assert forall x :: x in fs[root] <==> x in multiset(fs[root]);
    if WellFormed(fs) {
      DistinctPermutation(fs[root], sorted);
    }
  }

  /** {folder: i for i, folder in enumerate(names)}: a later duplicate
      overwrites the label of an earlier one. */
  function ClassMap(names: seq<string>): (r: map<string, nat>)
    ensures |r| <= |names|
  {
    if names == [] then map[]
    else
      var n := |names| - 1;
      ClassMap(names[..n])[names[n] := n]
  }

  /** The keys are the folder names, and the label of a folder is the
      position of its last occurrence. */
  lemma {:induction false} ClassMapSpec(names: seq<string>)
    ensures forall x :: x in ClassMap(names) <==> x in names
    ensures forall x :: x in ClassMap(names) ==> ClassMap(names)[x] < |names| && names[ClassMap(names)[x]] == x
    ensures forall x, j :: x in ClassMap(names) && ClassMap(names)[x] < j < |names| ==> names[j] != x
  {
    if names != [] {
      var n := |names| - 1;
      ClassMapSpec(names[..n]);
      assert forall x :: x in names[..n] ==> x in names;
      assert names == names[..n] + [names[n]];
    }
  }

  /** With distinct folder names, folder i gets label i, and labels are
      one-to-one. */
  lemma ClassMapLabels(names: seq<string>)
    requires Distinct(names)
    ensures forall i :: 0 <= i < |names| ==> names[i] in ClassMap(names) && ClassMap(names)[names[i]] == i
    ensures forall x, y :: x in ClassMap(names) && y in ClassMap(names) && x != y ==>
      ClassMap(names)[x] != ClassMap(names)[y]
  {
    var m := ClassMap(names);
    ClassMapSpec(names);
    forall i | 0 <= i < |names| ensures names[i] in m && m[names[i]] == i {
      assert names[i] in names;
      var k := m[names[i]];
      assert names[k] == names[i];
    }
  }

  // ---------------------------------------------------------------
  // Samples

  /** One entry of self.files: {'pcd_path': ..., 'category': ...}. */
  datatype Sample = Sample(path: string, category: string)

  /** The .off files of one listing, as samples of category. */
  function OffSamples(dir: string, category: string, names: seq<string>): (r: seq<Sample>)
    ensures |r| <= |names|
  {
    if names == [] then []
    else
      (if EndsWith(names[0], ".off") then [Sample(PathJoin(dir, names[0]), category)] else [])
      + OffSamples(dir, category, names[1..])
  }

  /** The first name of a listing gives at most one sample, ahead of
      those of the rest. */
  lemma OffSamplesHead(dir: string, category: string, names: seq<string>)
    requires names != []
    ensures OffSamples(dir, category, names) ==
      (if EndsWith(names[0], ".off") then [Sample(PathJoin(dir, names[0]), category)] else [])
      + OffSamples(dir, category, names[1..])
  {
  }

  /** Every listed name ending in ".off" gives a sample. */
  lemma {:induction false} OffSamplesComplete(dir: string, category: string, names: seq<string>, name: string)
    requires name in names && EndsWith(name, ".off")
    ensures Sample(PathJoin(dir, name), category) in OffSamples(dir, category, names)
  {
    OffSamplesHead(dir, category, names);
    if name != names[0] {
      assert name in names[1..];
      OffSamplesComplete(dir, category, names[1..], name);
    }
  }

  /** Every sample comes from a listed name ending in ".off". */
  lemma {:induction false} OffSamplesSound(dir: string, category: string, names: seq<string>, s: Sample)
    requires s in OffSamples(dir, category, names)
    ensures exists name :: name in names && EndsWith(name, ".off") && s == Sample(PathJoin(dir, name), category)
  {
    OffSamplesHead(dir, category, names);
    var head := if EndsWith(names[0], ".off") then [Sample(PathJoin(dir, names[0]), category)] else [];
    if s in head {
      assert names[0] in names;
    } else {
      OffSamplesSound(dir, category, names[1..], s);
      var name :| name in names[1..] && EndsWith(name, ".off") && s == Sample(PathJoin(dir, name), category);
      assert name in names;
    }
  }

  /** A listing without repetitions, of relative names, gives samples
      without repetitions. */
  lemma {:induction false} OffSamplesDistinct(dir: string, category: string, names: seq<string>)
    requires Distinct(names) && forall i :: 0 <= i < |names| ==> Relative(names[i])
    ensures Distinct(OffSamples(dir, category, names))
  {
    if names != [] {
      OffSamplesHead(dir, category, names);
      var head := if EndsWith(names[0], ".off") then [Sample(PathJoin(dir, names[0]), category)] else [];
      var rest := OffSamples(dir, category, names[1..]);
      assert Distinct(names[1..]);
      assert forall i :: 0 <= i < |names[1..]| ==> Relative(names[1..][i]);
      OffSamplesDistinct(dir, category, names[1..]);
      if head != [] {
        forall s | s in rest ensures s != head[0] {
          OffSamplesSound(dir, category, names[1..], s);
          var name :| name in names[1..] && EndsWith(name, ".off") && s == Sample(PathJoin(dir, name), category);
          if s == head[0] {
            PathJoinInjective(dir, name, names[0]);
          }
        }
        var all := head + rest;
        forall i, j | 0 <= i < j < |all| ensures all[i] != all[j] {
          assert all[j] == rest[j - 1] && rest[j - 1] in rest;
        }
      }
    }
  }

  /** A sample of a listing is a listed name ending in ".off", joined to
      the directory, and every such name gives one; a listing without
      repetitions gives no sample twice. */
  lemma OffSamplesSpec(dir: string, category: string, names: seq<string>)
    ensures forall name :: name in names && EndsWith(name, ".off") ==>
      Sample(PathJoin(dir, name), category) in OffSamples(dir, category, names)
    ensures forall s :: s in OffSamples(dir, category, names) ==>
      exists name :: name in names && EndsWith(name, ".off") && s == Sample(PathJoin(dir, name), category)
    ensures Distinct(names) && (forall i :: 0 <= i < |names| ==> Relative(names[i])) ==>
      Distinct(OffSamples(dir, category, names))
  {
    forall name | name in names && EndsWith(name, ".off")
      ensures Sample(PathJoin(dir, name), category) in OffSamples(dir, category, names)
    {
      OffSamplesComplete(dir, category, names, name);
    }
    forall s | s in OffSamples(dir, category, names)
      ensures exists name :: name in names && EndsWith(name, ".off") && s == Sample(PathJoin(dir, name), category)
    {
      OffSamplesSound(dir, category, names, s);
    }
    if Distinct(names) && (forall i :: 0 <= i < |names| ==> Relative(names[i])) {
      OffSamplesDistinct(dir, category, names);
    }
  }

  /** The number of different listed names that end in ".off",
      counted as a set, independently of the order of the listing. */
  function OffCount(names: seq<string>): nat {
    |set n | n in names && EndsWith(n, ".off")|
  }

  /** A first name that does not come back in the rest adds one to the
      count exactly when it ends in ".off". */
  lemma OffCountCons(names: seq<string>)
    requires names != [] && names[0] !in names[1..]
    ensures OffCount(names) == OffCount(names[1..]) + (if EndsWith(names[0], ".off") then 1 else 0)
  {
    var t := names[1..];
    var all := set n | n in names && EndsWith(n, ".off");
    var rest := set n | n in t && EndsWith(n, ".off");
    forall x | x in names ensures x == names[0] || x in t {
      var i :| 0 <= i < |names| && names[i] == x;
      if i > 0 {
        assert t[i - 1] == x;
      }
    }
    forall x | x in t ensures x in names {
      var i :| 0 <= i < |t| && t[i] == x;
      assert names[i + 1] == x;
    }
    if EndsWith(names[0], ".off") {
      assert all == rest + {names[0]};
    } else {
      assert all == rest;
    }
  }

  /** A listing without repetitions gives one sample per ".off" name. */
  lemma {:induction false} OffSamplesCount(dir: string, category: string, names: seq<string>)
    requires Distinct(names)
    ensures |OffSamples(dir, category, names)| == OffCount(names)
  {
    if names == [] {
      assert (set n | n in names && EndsWith(n, ".off")) == {};
    } else {
      var t := names[1..];
      assert Distinct(t) by {
        forall i, j | 0 <= i < j < |t| ensures t[i] != t[j] {
          assert t[i] == names[i + 1] && t[j] == names[j + 1];
        }
      }
      forall j | 0 <= j < |t| ensures t[j] != names[0] {
        assert t[j] == names[j + 1];
      }
      OffSamplesCount(dir, category, t);
      OffSamplesHead(dir, category, names);
      OffCountCons(names);
    }
  }

  /** Every category's split directory exists. */
  predicate SplitDirsExist(fs: FileSystem, root: string, folder: string, categories: seq<string>) {
    forall k :: 0 <= k < |categories| ==> CategoryDir(root, categories[k], folder) in fs
  }

  /** The nested loop of __init__: for each category in turn, the .off
      files of its split directory, in listing order. */
  function AllSamples(fs: FileSystem, root: string, folder: string, categories: seq<string>): (r: seq<Sample>)
    requires SplitDirsExist(fs, root, folder, categories)
  {
    if categories == [] then []
    else
      var c := categories[0];
      OffSamples(CategoryDir(root, c, folder), c, fs[CategoryDir(root, c, folder)])
      + AllSamples(fs, root, folder, categories[1..])
  }

  /** One step of the outer loop: the samples from position k on are
      those of category k followed by those from k + 1 on. */
  lemma AllSamplesUnroll(fs: FileSystem, root: string, folder: string, categories: seq<string>, k: nat)
    requires SplitDirsExist(fs, root, folder, categories) && k < |categories|
    ensures SplitDirsExist(fs, root, folder, categories[k..])
    ensures SplitDirsExist(fs, root, folder, categories[k + 1..])
    ensures var dir := CategoryDir(root, categories[k], folder);
      dir in fs &&
      AllSamples(fs, root, folder, categories[k..]) ==
        OffSamples(dir, categories[k], fs[dir]) + AllSamples(fs, root, folder, categories[k + 1..])
  {
    assert categories[k..][0] == categories[k];
    assert categories[k..][1..] == categories[k + 1..];
  }

  /** The number of ".off" files over the split directories of the
      given classes. */
  function TotalOffFiles(fs: FileSystem, root: string, folder: string, categories: seq<string>): nat
    requires SplitDirsExist(fs, root, folder, categories)
  {
    if categories == [] then 0
    else OffCount(fs[CategoryDir(root, categories[0], folder)]) + TotalOffFiles(fs, root, folder, categories[1..])
  }

  /** With a well-formed file system the data set holds one sample per
      ".off" file of every class's split directory. */
  lemma {:induction false} AllSamplesCount(fs: FileSystem, root: string, folder: string, categories: seq<string>)
    requires SplitDirsExist(fs, root, folder, categories) && WellFormed(fs)
    ensures |AllSamples(fs, root, folder, categories)| == TotalOffFiles(fs, root, folder, categories)
  {
    if categories != [] {
      var c := categories[0];
      var dir := CategoryDir(root, c, folder);
      AllSamplesCount(fs, root, folder, categories[1..]);
      OffSamplesCount(dir, c, fs[dir]);
    }
  }

  /** A sample is in the data set exactly when its category is a class
      and its path is a listed ".off" name of that class's split
      directory. */
  lemma {:induction false} AllSamplesSpec(fs: FileSystem, root: string, folder: string, categories: seq<string>, s: Sample)
    requires SplitDirsExist(fs, root, folder, categories)
    ensures s in AllSamples(fs, root, folder, categories) <==>
      s.category in categories &&
      exists name :: name in fs[CategoryDir(root, s.category, folder)] && EndsWith(name, ".off") &&
        s.path == PathJoin(CategoryDir(root, s.category, folder), name)
  {
    if categories != [] {
      var c := categories[0];
      var dir := CategoryDir(root, c, folder);
      assert forall x :: x in categories[1..] ==> x in categories;
      AllSamplesSpec(fs, root, folder, categories[1..], s);
      OffSamplesSpec(dir, c, fs[dir]);
      assert forall x :: x in categories ==> x == c || x in categories[1..];
      if s.category == c && exists name :: name in fs[dir] && EndsWith(name, ".off") && s.path == PathJoin(dir, name) {
        var name :| name in fs[dir] && EndsWith(name, ".off") && s.path == PathJoin(dir, name);
        assert s == Sample(PathJoin(dir, name), c);
      }
    }
  }

  /** With a well-formed file system and distinct classes, no sample is
      listed twice. */
  lemma {:induction false} AllSamplesDistinct(fs: FileSystem, root: string, folder: string, categories: seq<string>)
    requires SplitDirsExist(fs, root, folder, categories)
    requires WellFormed(fs) && Distinct(categories)
    ensures Distinct(AllSamples(fs, root, folder, categories))
  {
    if categories != [] {
      var c := categories[0];
      var dir := CategoryDir(root, c, folder);
      assert forall x :: x in categories[1..] ==> x in categories;
      assert Distinct(categories[1..]);
      AllSamplesDistinct(fs, root, folder, categories[1..]);
      OffSamplesSpec(dir, c, fs[dir]);
      var head := OffSamples(dir, c, fs[dir]);
      var rest := AllSamples(fs, root, folder, categories[1..]);
      forall i, j | 0 <= i < |head| && 0 <= j < |rest| ensures head[i] != rest[j] {
        assert rest[j] in rest;
        AllSamplesSpec(fs, root, folder, categories[1..], rest[j]);
        assert head[i] in head;
        assert c !in categories[1..];
      }
      assert AllSamples(fs, root, folder, categories) == head + rest;
    }
  }

  // ---------------------------------------------------------------
  // Transforms

  /** The transforms of main.py; only PointSampler is modelled in
      full (module Sampler). */
  datatype Transform = PointSampling(outputSize: int) | Normalize | RandRotationZ | RandomNoise | ToTensor

  /** default_transforms(), which is also the default `transform`
      argument of __init__. */
  const DefaultTransforms: seq<Transform> := [PointSampling(1024), Normalize, ToTensor]

  /** __init__'s other default arguments: the training split, and not a
      validation set. */
  const DefaultValid: bool := false
  const DefaultFolder: string := "train"

  // ---------------------------------------------------------------
  // The data set object

  datatype DatasetError =
    | NotFound(path: string)   // os.listdir on a directory that does not exist
    | IndexOutOfRange(idx: int) // self.files[idx] raises IndexError

  /** What __getitem__ looks up: the mesh file and the class label. */
  datatype Item = Item(path: string, classIndex: nat)

  /** The first split directory, over the categories in order, that
      does not exist. */
  function FirstMissing(fs: FileSystem, root: string, folder: string, categories: seq<string>): (r: Option<nat>)
    ensures r.None? <==> SplitDirsExist(fs, root, folder, categories)
    ensures r.Some? ==>
      r.value < |categories| && CategoryDir(root, categories[r.value], folder) !in fs &&
      forall k :: 0 <= k < r.value ==> CategoryDir(root, categories[k], folder) in fs
  {
    if categories == [] then None
    else if CategoryDir(root, categories[0], folder) !in fs then Some(0)
    else
      match FirstMissing(fs, root, folder, categories[1..])
      case None => None
      case Some(k) => Some(k + 1)
  }

  class PointCloudData {
    const rootDir: string
    /** self.classes.keys(), in insertion order. */
    const categories: seq<string>
    const classes: map<string, nat>
    const transforms: seq<Transform>
    const valid: bool
    var files: seq<Sample>

    /** Every sample's category is a class, so __getitem__'s label
        lookup never fails. */
    ghost predicate Valid()
      reads this
    {
      && classes == ClassMap(categories)
      && forall i :: 0 <= i < |files| ==> files[i].category in classes
    }

    /** __init__ once the root directory and every split directory are
        known to exist. */
    constructor (fs: FileSystem, rootDir: string, valid: bool, folder: string, transform: seq<Transform>)
      requires WellFormed(fs) && rootDir in fs
      requires SplitDirsExist(fs, rootDir, folder, Folders(fs, rootDir))
      ensures Valid()
      ensures this.rootDir == rootDir && this.valid == valid
      ensures categories == Folders(fs, rootDir)
      ensures classes == ClassMap(categories)
      ensures transforms == if valid then DefaultTransforms else transform
      ensures files == AllSamples(fs, rootDir, folder, categories)
      // the i-th class folder gets label i, and no mesh is listed twice
      ensures forall i :: 0 <= i < |categories| ==> categories[i] in classes && classes[categories[i]] == i
      ensures Distinct(files)
      // __len__: one sample per .off file of the class split directories
      ensures |files| == TotalOffFiles(fs, rootDir, folder, categories)
    {
      this.rootDir := rootDir;
      var folders := Folders(fs, rootDir);
      categories := folders;
      classes := ClassMap(folders);
      transforms := if valid then DefaultTransforms else transform;
      this.valid := valid;
      var samples := CollectSamples(fs, rootDir, folder, folders);
      files := samples;
      InitFacts(fs, rootDir, folder, folders, samples);
    }

    /** __len__ */
    function Length(): (n: nat)
      reads this
      ensures n == |files|
    {
      |files|
    }

    /** __getitem__(idx), up to opening the file: the sample at idx
        (a negative idx counts from the end) and its class label. */
    function GetItem(idx: int): (r: Result<Item, DatasetError>)
      reads this
      requires Valid()
      ensures r.Success? <==> -(|files| as int) <= idx < |files|
      ensures r.Failure? ==> r.error == IndexOutOfRange(idx)
      // the label names the sample's class folder
      ensures r.Success? ==>
        var k := PyIndex(|files|, idx).value;
        r.value.path == files[k].path &&
        r.value.classIndex < |categories| && categories[r.value.classIndex] == files[k].category
    {
      match PyIndex(|files|, idx)
      case None => Failure(IndexOutOfRange(idx))
      case Some(k) =>
        ClassMapSpec(categories);
        Success(Item(files[k].path, classes[files[k].category]))
    }
  }

  /** __len__ of a data set built from a well-formed file system is the
      number of ".off" files of its class split directories. */
  lemma LengthCountsOffFiles(d: PointCloudData, fs: FileSystem, folder: string)
    requires WellFormed(fs) && SplitDirsExist(fs, d.rootDir, folder, d.categories)
    requires d.files == AllSamples(fs, d.rootDir, folder, d.categories)
    ensures d.Length() == TotalOffFiles(fs, d.rootDir, folder, d.categories)
  {
    AllSamplesCount(fs, d.rootDir, folder, d.categories);
  }

  lemma OffSamplesSnoc(dir: string, category: string, names: seq<string>, m: nat)
    requires m < |names|
    ensures OffSamples(dir, category, names[..m + 1]) == OffSamples(dir, category, names[..m]) +
      (if EndsWith(names[m], ".off") then [Sample(PathJoin(dir, names[m]), category)] else [])
  {
    OffSamplesAppend(dir, category, names[..m], [names[m]]);
    assert names[..m] + [names[m]] == names[..m + 1];
  }

  lemma {:induction false} OffSamplesAppend(dir: string, category: string, a: seq<string>, b: seq<string>)
    ensures OffSamples(dir, category, a + b) == OffSamples(dir, category, a) + OffSamples(dir, category, b)
  {
    if a != [] {
      OffSamplesAppend(dir, category, a[1..], b);
      assert (a + b)[0] == a[0] && (a + b)[1..] == a[1..] + b;
      var head := if EndsWith(a[0], ".off") then [Sample(PathJoin(dir, a[0]), category)] else [];
      assert OffSamples(dir, category, a + b) == head + OffSamples(dir, category, a[1..] + b);
      assert OffSamples(dir, category, a) == head + OffSamples(dir, category, a[1..]);
    } else {
      assert a + b == b;
    }
  }

  /** The nested loop of __init__, appending to an empty list: for
      each class folder in turn, its split directory's .off files. */
  method CollectSamples(fs: FileSystem, rootDir: string, folder: string, folders: seq<string>)
    returns (samples: seq<Sample>)
    requires SplitDirsExist(fs, rootDir, folder, folders)
    ensures samples == AllSamples(fs, rootDir, folder, folders)
  {
    samples := [];
    var k := 0;
    assert folders[k..] == folders;
    while k < |folders|
      invariant 0 <= k <= |folders|
      invariant SplitDirsExist(fs, rootDir, folder, folders[k..])
      invariant samples + AllSamples(fs, rootDir, folder, folders[k..]) == AllSamples(fs, rootDir, folder, folders)
    {
      var category := folders[k];
      var newDir := CategoryDir(rootDir, category, folder);
      AllSamplesUnroll(fs, rootDir, folder, folders, k);
      var found := ListOffFiles(newDir, category, fs[newDir]);
      samples := samples + found;
      k := k + 1;
    }
    assert folders[k..] == [];
  }

  /** The inner loop of __init__: a sample for each listed name that
      ends in ".off", in listing order. */
  method ListOffFiles(newDir: string, category: string, listing: seq<string>) returns (samples: seq<Sample>)
    ensures samples == OffSamples(newDir, category, listing)
  {
    samples := [];
    var m := 0;
    while m < |listing|
      invariant 0 <= m <= |listing|
      invariant samples == OffSamples(newDir, category, listing[..m])
    {
      var file := listing[m];
      if EndsWith(file, ".off") {
        samples := samples + [Sample(PathJoin(newDir, file), category)];
      }
      OffSamplesSnoc(newDir, category, listing, m);
      m := m + 1;
    }
    assert listing[..m] == listing;
  }

  /** What __init__ leaves behind: every sample's category has a
      label, folder i has label i, and no sample comes twice. */
  lemma InitFacts(fs: FileSystem, rootDir: string, folder: string, folders: seq<string>, files: seq<Sample>)
    requires WellFormed(fs) && rootDir in fs && folders == Folders(fs, rootDir)
    requires SplitDirsExist(fs, rootDir, folder, folders)
    requires files == AllSamples(fs, rootDir, folder, folders)
    ensures forall i :: 0 <= i < |files| ==> files[i].category in ClassMap(folders)
    ensures forall i :: 0 <= i < |folders| ==> folders[i] in ClassMap(folders) && ClassMap(folders)[folders[i]] == i
    ensures Distinct(files)
    ensures |files| == TotalOffFiles(fs, rootDir, folder, folders)
  {
    AllSamplesCount(fs, rootDir, folder, folders);
    forall s | s in files ensures s.category in folders {
      AllSamplesSpec(fs, rootDir, folder, folders, s);
    }
    ClassMapCovers(folders, files);
    FoldersSpec(fs, rootDir);
    ClassMapLabels(folders);
    AllSamplesDistinct(fs, rootDir, folder, folders);
  }

  lemma ClassMapCovers(folders: seq<string>, files: seq<Sample>)
    requires forall s :: s in files ==> s.category in folders
    ensures forall i :: 0 <= i < |files| ==> files[i].category in ClassMap(folders)
  {
    ClassMapSpec(folders);
    forall i | 0 <= i < |files| ensures files[i].category in ClassMap(folders) {
      assert files[i] in files;
    }
  }

  /** PointCloudData(root_dir, valid, folder, transform): listing a
      missing root raises first; then the first class whose split
      directory is missing raises. */
  method Open(fs: FileSystem, rootDir: string, valid: bool, folder: string, transform: seq<Transform>)
    returns (r: Result<PointCloudData, DatasetError>)
    requires WellFormed(fs)
    ensures rootDir !in fs ==> r == Failure(NotFound(rootDir))
    ensures rootDir in fs ==>
      var folders := Folders(fs, rootDir);
      match FirstMissing(fs, rootDir, folder, folders)
      case Some(k) => r == Failure(NotFound(CategoryDir(rootDir, folders[k], folder)))
      case None =>
        r.Success? && r.value.Valid() &&
        r.value.rootDir == rootDir && r.value.valid == valid &&
        r.value.categories == folders && r.value.classes == ClassMap(folders) &&
        r.value.files == AllSamples(fs, rootDir, folder, folders) && Distinct(r.value.files) &&
        r.value.Length() == TotalOffFiles(fs, rootDir, folder, folders) &&
        r.value.transforms == (if valid then DefaultTransforms else transform)
  {
    if rootDir !in fs {
      return Failure(NotFound(rootDir));
    }
    var folders := Folders(fs, rootDir);
    var missing := FirstMissing(fs, rootDir, folder, folders);
    if missing.Some? {
      return Failure(NotFound(CategoryDir(rootDir, folders[missing.value], folder)));
    }
    var d := new PointCloudData(fs, rootDir, valid, folder, transform);
    return Success(d);
  }
}
