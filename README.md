# PointNet data pipeline: OFF reading, point sampling, data set indexing

A Dafny model of the data side of `main.py`, a PointNet training script
for the ModelNet benchmark. The model covers four pieces:

- `read_off`: reads an OFF mesh file into vertex rows and face rows.
- `PointSampler`: turns a mesh into `output_size` points on its surface.
  It picks faces with probability proportional to their Heron area
  (`random.choices`), then draws a barycentric point on each picked
  triangle.
- `PointCloudData`: builds the class map and the sample list of a
  ModelNet directory tree. Its `__len__` and `__getitem__` are modelled
  too.
- `get_path`: chooses the data set root.

Modules, one file each:

| file | module | what it holds |
|---|---|---|
| `wrappers.dfy` | `Wrappers` | `Option`, `Result`; `range(n)` for negative `n`; Python's negative list indices |
| `pystr.dfy` | `PyStr` | `str.strip()`, `str.split(' ')`, `int(str)`, `str.endswith`, Python's `str` ordering and `sorted()` |
| `paths.dfy` | `Paths` | `get_path` |
| `off_reader.dfy` | `OffReader` | `read_off` as a function over the file's lines, and as a method that reads an open file line by line (`LineReader`); an OFF writer for the round trip |
| `sampler.dfy` | `Sampler` | `triangle_area`, `sample_point`, `random.choices` by cumulative weights, and the class `PointSampler` whose `__call__` fills two arrays in loops |
| `dataset.dfy` | `Dataset` | the file-system snapshot, `os.path.join`, the class folders and class map, the sample list, and the class `PointCloudData` |

Conventions:
- Floating-point numbers are modelled by `real`.
- Functions the code only calls are parameters: `np.linalg.norm` is
  `norm`, `** 0.5` is `sqrt`, and `float(s)` is `parseCoord`. Where a
  proof needs them to behave, the predicates `IsNorm` and `IsSqrt` state
  what is assumed.
- Random numbers are parameters too:
  - `us[k]` is the `random()` that `random.choices` draws for the k-th
    pick;
  - `draws[k]` holds the two `random()` calls of `sample_point` for the
    k-th point.
- The file system is a snapshot `map<string, seq<string>>` from each
  directory path to its `os.listdir` listing. `os.path.isdir(p)` holds
  exactly when `p` is a key. A `WellFormed` snapshot lists no name twice
  in one directory and has only relative names, as a real file system
  does.
- Every exception the code can raise on these paths is a `Failure`
  value:
  - `OffError` for `read_off`;
  - `SampleError` for `PointSampler.__call__`;
  - `DatasetError` for `PointCloudData`.

Where `main.py` is stricter or looser than a plain reading of the OFF
format, the model follows `main.py`:
- The header is compared after `strip()`, so surrounding whitespace is
  accepted.
- Lines are split on a single space. Two spaces in a row produce an
  empty field, and that field fails `int()`/`float()`.
- `int()` skips the whitespace that `str.isspace()` accepts except the
  four information separators U+001C..U+001F (`IntSpace`). `strip()`
  removes those, but a count or face field that holds one fails
  (`ParseIntRejectsSeparator`, `CountLineSeparator`).
- The count line must hold exactly three integers, because of the
  three-name unpacking.
- A vertex line may hold any number of coordinates.
- The leading count of a face line is dropped without being compared
  with the number of indices (`FaceRowDropsCount`).
- A negative vertex or face count reads no lines.
- If every face has area zero, `random.choices` raises `ValueError`
  (`ZeroTotalArea`).

## Model

| member | source | states |
|---|---|---|
| `Wrappers.PyIndex` | main.py:58-60 | A list or array index is accepted exactly when it lies in [-n, n). A negative index counts from the end. The position read is always in range. |
| `PyStr.LStripKeepsSuffix` | main.py:148 | `lstrip()` returns a suffix of its input. Everything it drops is whitespace, and the result does not start with whitespace. |
| `PyStr.RStripKeepsPrefix` | main.py:148 | `rstrip()` returns a prefix of its input. Everything it drops is whitespace, and the result does not end with whitespace. |
| `PyStr.StripTrims` | main.py:148 | `strip()` leaves no whitespace at either end. It returns an already trimmed string unchanged, and it is idempotent. |
| `PyStr.Split` | main.py:150-152 | `split(' ')` returns at least one field. No field contains the separator, and joining the fields with it gives the input back. |
| `PyStr.SplitJoin` | main.py:150-152 | Splitting the join of separator-free parts gives those parts back. |
| `PyStr.DigitsOfNat` | main.py:150 | The decimal digits of a natural number read back as that number. |
| `PyStr.ParseIntToString` | main.py:150 | `int(str(n)) == n` for every integer `n`. |
| `PyStr.ParseIntRejectsSeparator` | main.py:150-152 | `int()` rejects a field ending in one of U+001C..U+001F, characters `strip()` removes but `int()` does not skip. |
| `PyStr.StrictTotalOrder` | main.py:116 | Python's `<` on `str` is irreflexive, transitive and total on distinct strings. |
| `PyStr.SortStrings` | main.py:116 | `sorted(names)` is sorted and a permutation of `names`. |
| `PyStr.DistinctPermutation` | main.py:116 | A permutation of a repetition-free list is repetition-free, so sorting a listing repeats no name. |
| `Paths.GetPath` | main.py:16-22 | The root is ModelNet40 exactly when `classes == 40`, and ModelNet10 otherwise. It ends in "-1024" exactly when `sampled` is set, and nothing else is added: the path is the root followed by the suffix. |
| `OffReader.ParseAll` | main.py:150-152 | A line's fields convert exactly when every field converts. The result then has one value per field, each the conversion of its field. |
| `OffReader.ReadBlockSpec` | main.py:151-152 | A block of n lines reads exactly when every line converts, and row i is then line i converted. On failure, the error names a line that does not convert, and every line before it converts. |
| `OffReader.ReadBlockConverts` | main.py:151-152 | Lines that all convert, to given values, read as exactly those values. |
| `OffReader.ReadBlockStops` | main.py:151-152 | The first line that does not convert is the reported error. |
| `OffReader.ReadRowsSpec` | main.py:151-152 | Each vertex row is its vertex line converted, and each face row is its face line converted with the count dropped. A failing line is the first one of its block that does not convert. A face-line failure happens only after every vertex line converted. |
| `OffReader.ReadOff` | main.py:147-153 | The result is `BadHeader` exactly when the first line does not strip to "OFF". It is `BadCountLine` exactly when the header is fine but the second line is not three fields that `int()` accepts. Otherwise the announced vertex and face blocks are read, and a negative count reads nothing. |
| `OffReader.CountLineSeparator` | main.py:150 | The count line "0\x1c 0 0" is rejected with `BadCountLine`, as `int()` raises on its first field. |
| `OffReader.LineReader.ReadLine` | main.py:148-152 | `readline()` returns the next line and advances the position by one. At end of file it returns "" and the position stays put. |
| `OffReader.ReadBlockFrom` | main.py:151-152 | The list comprehension over `range(n)` returns what `ReadBlock` says of the unread lines. The file is left just after the last line read, including the failing line on error. |
| `OffReader.ReadRowsFrom` | main.py:151-153 | The vertex comprehension, then the face comprehension, return `ReadRows` of the unread lines. The file is left after the last line read. |
| `OffReader.ReadOffFile` | main.py:147-153 | `read_off` on an open file returns exactly `ReadOff` of its unread lines. The file is left `LinesRead` lines further on. |
| `OffReader.FaceRowDropsCount` | main.py:152 | A face line reads as its indices whatever its leading count says. |
| `OffReader.ReadWriteRoundTrip` | main.py:147-153 | Writing a mesh as OFF text and reading it back gives the same mesh. This needs a coordinate printer whose output `parseCoord` inverts and that is never empty and contains no whitespace, and every vertex must have at least one coordinate, since `float('')` raises. |
| `Sampler.HeronFactored` | main.py:42-43 | 16·s(s-a)(s-b)(s-c) equals (a+b+c)(b+c-a)(a+c-b)(a+b-c). |
| `Sampler.HeronOfTriangle` | main.py:38-43 | For side lengths that satisfy the triangle inequality, Heron's product is non-negative, so the clamp `max(…, 0)` changes nothing. |
| `Sampler.RadicandPositive` | main.py:42-43 | The clamped radicand is positive exactly when the three strict triangle inequalities hold. |
| `Sampler.DegenerateRadicand` | main.py:43 | A degenerate triangle (c = a + b) has radicand 0. |
| `Sampler.TriangleArea` | main.py:38-43 | With a true square root, the area is non-negative and its square is the clamped Heron radicand of the three side lengths. |
| `Sampler.SidesFormTriangle` | main.py:38-43 | With a true norm, the three sides of any three points obey the triangle inequality, so the clamp never applies. |
| `Sampler.WeightsConvex` | main.py:48-49 | For draws in [0, 1], the weights s, t-s and 1-t are non-negative and sum to 1. |
| `Sampler.WeightsCoverTriangle` | main.py:48-49 | Every triple of barycentric weights is produced by some pair of draws in [0, 1], in either order. |
| `Sampler.ConvexBetween` | main.py:49 | A convex combination of three numbers lies between their minimum and their maximum. |
| `Sampler.SamplePoint` | main.py:45-50 | For draws in [0, 1], each coordinate of the sampled point lies between the smallest and the largest of that coordinate over the three corners. |
| `Sampler.HasCornersIff` | main.py:58-60 | `verts[face[k]]` for k = 0, 1, 2 succeeds exactly when the face has at least three entries and each of the first three is in [-n, n). |
| `Sampler.Pick` | main.py:62-65 | The face picked for a random value is a valid face index. |
| `Sampler.PickInInterval` | main.py:62-65 | With non-negative weights and x in [0, total), the pick is the face whose cumulative interval holds x. Its weight is positive, so a zero-area face is never picked. |
| `Sampler.Choices` | main.py:62-65 | `random.choices(..., k)` returns one valid face index per random value. |
| `Sampler.ChoicesPositive` | main.py:62-65 | With a positive total and every random value in [0, 1), every picked face has positive area. |
| `Sampler.Areas` | main.py:55-60 | There is one area per face, and with a true square root every area is non-negative. |
| `Sampler.PointSampler.constructor` | main.py:34-36 | `__init__` stores `output_size`. |
| `Sampler.PointSampler.FaceAreas` | main.py:55-60 | The area loop fills a new array equal to `Areas`. It fails exactly when some face cannot be looked up, naming the first such face. |
| `Sampler.PointSampler.SamplePoints` | main.py:67-72 | The sampling loop fills a new array whose row k holds the point drawn on the k-th picked face. |
| `Sampler.PointSampler.Apply` | main.py:52-74 | Errors come in the order `__call__` meets them, each stated in both directions: a bad face, then no faces, then a total area ≤ 0, then a negative `output_size`. Otherwise a new array holds `output_size` points. Each comes from a picked face of positive area and lies within its triangle's bounding box. |
| `Dataset.PathJoinInjective` | main.py:122-126 | Under one directory, different relative names give different paths. |
| `Dataset.DirsMember` | main.py:116 | The folder filter keeps a name exactly when it is listed and is a directory. |
| `Dataset.DirsSorted` | main.py:116 | The folder filter keeps a sorted listing sorted. |
| `Dataset.DirsDistinct` | main.py:116 | The folder filter keeps a repetition-free listing repetition-free. |
| `Dataset.DirsSpec` | main.py:116 | The three properties above, for any listing. |
| `Dataset.FoldersSpec` | main.py:116 | The class folders are exactly the root's entries that are directories. They come in sorted order, and with a well-formed snapshot none repeats. |
| `Dataset.ClassMapSpec` | main.py:117 | The keys of the class map are the folder names. A folder's label is the position of its last occurrence, and it is within range. |
| `Dataset.ClassMapLabels` | main.py:117 | With distinct folders, folder i has label i, and different folders have different labels. |
| `Dataset.OffSamplesComplete` | main.py:123-128 | Every listed name ending in ".off" yields a sample for its joined path. |
| `Dataset.OffSamplesSound` | main.py:123-128 | Every sample comes from a listed name ending in ".off". |
| `Dataset.OffSamplesDistinct` | main.py:123-128 | A repetition-free listing of relative names yields no sample twice. |
| `Dataset.OffSamplesSpec` | main.py:123-128 | The three properties above together. |
| `Dataset.AllSamplesSpec` | main.py:121-128 | A sample is in the data set exactly when its category is a class folder and its path is a listed ".off" name of that class's split directory. |
| `Dataset.AllSamplesDistinct` | main.py:121-128 | With a well-formed snapshot and distinct class folders, no sample is listed twice. |
| `Dataset.FirstMissing` | main.py:121-123 | It finds nothing exactly when every split directory exists. Otherwise it names the first class whose split directory is missing. |
| `Dataset.ListOffFiles` | main.py:123-128 | The inner loop collects `OffSamples` of one listing, in listing order. |
| `Dataset.CollectSamples` | main.py:120-128 | The nested loop collects `AllSamples`: each class's samples, in class order. |
| `Dataset.InitFacts` | main.py:117-128 | After `__init__`, every sample's category has a label, folder i has label i, and no sample repeats. |
| `Dataset.PointCloudData.constructor` | main.py:114-131 | `__init__` sets the categories to the sorted class folders, the class map to `ClassMap` of those, and the transforms to the defaults exactly when `valid`. The file list equals `AllSamples`, with labels 0..n-1 and no repetition, and its length (`__len__`) is the number of `.off` files in the class split directories. |
| `Dataset.OffSamplesCount` | main.py:123-128 | A class directory listing without repeated names gives exactly one sample per different `.off` name in it. |
| `Dataset.AllSamplesCount` | main.py:122-128 | On a well-formed file system the sample list has one entry per `.off` file over the split directories of all classes. |
| `Dataset.LengthCountsOffFiles` | main.py:130-131 | `__len__` of a data set built from a well-formed file system equals the number of `.off` files in the split directories of its classes. |
| `Dataset.PointCloudData.GetItem` | main.py:139-145 | It succeeds exactly when `idx` is in [-len, len), and otherwise raises `IndexError`. The item carries the indexed sample's path and a label that names that sample's class folder. |
| `Dataset.Open` | main.py:114-128 | A missing root raises first, then the first class with a missing split directory. Otherwise the object holds the given root and `valid`, the sorted folders with their class map, and all their samples, with no repetition, its `__len__` is the number of `.off` files in the class split directories, and the transforms are chosen by `valid`. |

## Left out

- `Normalize`, `RandRotation_z`, `RandomNoise` and `ToTensor`: these are floating-point arithmetic, trigonometry and Gaussian noise on tensors. Only the transform list is kept, as the `Transform` datatype and `DefaultTransforms`.
- Default arguments: Dafny has none, so `GetPath`, the constructor and `Open` take every argument. The defaults are the constants `Paths.DefaultClasses` (40), `Paths.DefaultSampled` (true), `Dataset.DefaultValid` (false), `Dataset.DefaultFolder` ("train") and `Dataset.DefaultTransforms`, which is both `default_transforms()` and the default `transform`. That the default transform is one object, built once when the class is defined and shared by every instance, is not modelled; transforms are values here.
- `__preproc__` and the file opening and transform call in `__getitem__`: `GetItem` returns the path and the label, and `read_off` is modelled on its own.
- The probability distributions: random values are parameters. The model proves which face each value picks and where each point lies, not that the picks are proportional to area or that the points are uniform.
- Floating point: coordinates are `real`. NaN, infinities and rounding are not modelled, and so are not the `isfinite` check of `random.choices` or a total that rounds to zero.
- `float()`, `np.linalg.norm` and `** 0.5`: these are the parameters `parseCoord`, `norm` and `sqrt`. `IsNorm` and `IsSqrt` state what the lemmas assume of them.
- `int()`: underscores between digits and non-ASCII digits are not accepted, so the model accepts only ASCII digits.
- `int()`'s limit of 4300 digits (Python 3.11 and later raise `ValueError` above it) is not modelled: the model reads integers of any length.
- Vertex rows that are not three numbers: `Sampler` takes vertices as `Vec3`. How numpy would build a ragged array is not modelled.
- `raise ('Not a valid OFF header')`: this raises a `TypeError`, because a string is not an exception. The model records it as the failure `BadHeader`.
- `random.choices`: its binary search over the cumulative weights is modelled by what it computes, the first cumulative weight above the drawn value with the last index as a fallback (`Pick`). The two agree when the cumulative weights do not decrease, which holds for the non-negative face areas that `__call__` passes; with negative weights, which `__call__` never produces, `bisect_right` can return a different index. The checks modelled are those of Python 3.9 and later: an empty population, and a total weight ≤ 0.
- `Sampler.PointSampler.Apply`: requires `IsSqrt(sqrt)`, so areas are non-negative and no face of area zero is picked. With a `sqrt` that can return negative values, its success case is not described.
- `Sampler.SamplePoint`: states that the point lies in the corners' bounding box. That the point is the convex combination with the weights of `WeightsConvex` holds by its definition and is not restated as an `ensures`.
- `Dataset.PointCloudData.constructor` and `Dataset.Open`: they require a well-formed snapshot, one in which no directory lists a name twice. `main.py` iterates `self.classes.keys()`, and for such a snapshot that is exactly the sorted folder list, which is what the model iterates.
- Order of `os.listdir`: it is whatever the snapshot lists. Python gives no order guarantee, so each listing is taken as given.
- `Dataset.CollectSamples`: builds the list in a local variable and assigns it to `files` once. `main.py` appends to `self.files` in place. Nothing reads the list in between, so the final state is the same.
- The `__main__` block, `models`, `utils`, the YAML configuration, the data loaders and training: these are not part of this model.
