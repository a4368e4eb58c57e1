# StereoCameraModel in Dafny

A model of rtabmap's `StereoCameraModel`: a calibrated stereo rig holding a
name, a left and a right monocular camera model, and four optional
extrinsic matrices (rotation R 3x3, translation T 3x1, essential E 3x3,
fundamental F 3x3). The model covers renaming, loading and saving the
stereo pose file `{directory}/{name}_pose.yaml` (ROS calibration layout,
one `{rows, cols, data}` block per matrix with the data row-major),
rescaling, the depth/disparity conversions and the stereo transform.

Files:

- `wrappers.dfy`: the `Option` type (an empty matrix is `None`).
- `matrix.dfy`: row-major matrices, the `{rows, cols, data}` block, and the
  block writer and reader with their round-trip lemmas.
- `monocular.dfy`: the slice of the monocular camera model the stereo model
  uses: name, fx, fy, cx, cy, `isValid`, `setName`, `scaled`. Its `load`
  and `save` do file I/O, so they are function-typed parameters.
- `pose_file.dfy`: the pose record, its path, and the writer/reader of the
  four blocks.
- `stereo.dfy`: the `StereoCameraModel` class with its methods and queries,
  the lemmas about them, and a save-then-load client.

A directory is modelled as a map from path to pose record (`PoseStore`).
"The file exists" means "the path is a key". `Save` returns the new map.

Two behaviours of the C++ that are easy to misread:

- `save` returns false when the name, R or T is empty: control falls
  through to its final `return false` (line 160).
- `load` with `ignoreStereoTransform` leaves R, T, E and F as they were.

The C++ reads the file's `camera_name` through an integer conversion
and assigns the integer to the `std::string` name. That assignment makes
the name a one-character string. `Load` takes the character as a
parameter (`nameChar`) and says nothing more about it. So the name
does not round-trip through save and load, and no lemma claims it does.

## Model

| member | source | states |
|---|---|---|
| `Matrix.RowMajorOffsetInRange` | corelib/src/StereoCameraModel.cpp:73 | element (i, j) of a rows x cols row-major buffer lies inside the rows*cols values |
| `Matrix.RowMajorOffsetInjective` | corelib/src/StereoCameraModel.cpp:73 | distinct elements of a row-major matrix occupy distinct offsets |
| `Matrix.Encode` | corelib/src/StereoCameraModel.cpp:131-153 | a matrix is written with its own rows and cols and exactly rows*cols data values; an empty matrix writes 0, 0 and no data |
| `Matrix.EncodeAt` | corelib/src/StereoCameraModel.cpp:134 | the written data lists element (i, j) at offset i*cols+j (row-major) |
| `Matrix.Decode` | corelib/src/StereoCameraModel.cpp:66-73 | a block is accepted exactly when rows*cols equals the data length and the shape is the expected one; an accepted block yields a matrix of that shape |
| `Matrix.DecodeAt` | corelib/src/StereoCameraModel.cpp:73 | element (i, j) of a read matrix is data[i*cols+j] |
| `Matrix.DecodeOffsetsDistinct` | corelib/src/StereoCameraModel.cpp:73 | distinct elements of a read matrix are taken from distinct positions of the block's data |
| `Matrix.DecodeReadsEveryValue` | corelib/src/StereoCameraModel.cpp:73 | every value of a read block's data is the element at row k / cols, column k % cols, so the read is a bijection between data positions and elements |
| `Matrix.DecodeEncode` | corelib/src/StereoCameraModel.cpp:131-135 | writing a matrix of the expected shape and reading it back gives the same matrix |
| `Matrix.EncodeDecode` | corelib/src/StereoCameraModel.cpp:66-73 | any block that is read successfully is exactly the block its matrix writes |
| `Matrix.EmptyIsRefused` | corelib/src/StereoCameraModel.cpp:71-72 | the block written for an empty matrix fails the shape check of any non-empty shape |
| `PoseFile.PosePath` | corelib/src/StereoCameraModel.cpp:57 | the pose path is the directory, a slash, the camera name and the suffix `_pose.yaml`, with the name recoverable from its position |
| `PoseFile.PosePathInjective` | corelib/src/StereoCameraModel.cpp:121 | within one directory, two camera names share a pose path only if they are equal, so a file saved under a name is found only by loading under that name |
| `PoseFile.EncodePose` | corelib/src/StereoCameraModel.cpp:129-153 | the written record carries the name, and each of its four blocks reads back at its calibration shape as the field it was written from, an empty field as a refused block |
| `PoseFile.DecodePose` | corelib/src/StereoCameraModel.cpp:66-100 | a pose record loads exactly when rotation, essential and fundamental are 3x3 blocks and translation is a 3x1 block, each with consistent data length; each loaded matrix has its shape and holds exactly its block's data |
| `PoseFile.PoseEncodeDecode` | corelib/src/StereoCameraModel.cpp:66-100 | every record that loads is exactly the record save writes for its camera name and its four loaded matrices |
| `PoseFile.PoseRoundTrip` | corelib/src/StereoCameraModel.cpp:127-153 | the record written for R, T, E, F of the calibration shapes reads back as those four matrices |
| `PoseFile.WrittenPoseReadable` | corelib/src/StereoCameraModel.cpp:143-153 | a written record can be read back if and only if none of R, T, E, F was empty |
| `Stereo.StereoCameraModel.SetName` | corelib/src/StereoCameraModel.cpp:37-42 | name becomes n, the left model's name n+"_left", the right's n+"_right"; the matrices are unchanged |
| `Stereo.StereoCameraModel.Load` | corelib/src/StereoCameraModel.cpp:44-112 | name is set first; fails if the left or right monocular load fails (right not attempted after left fails); with ignoreStereoTransform it succeeds leaving R, T, E, F unchanged; otherwise clears R and T, fails without the pose file (E, F kept), and with it either loads all four matrices (name becoming one character) or aborts on a bad block |
| `Stereo.StereoCameraModel.Save` | corelib/src/StereoCameraModel.cpp:113-161 | false with nothing written if a monocular save fails; true with nothing written under ignoreStereoTransform; otherwise true exactly when name, R and T are all non-empty, in which case only the pose path is written, with the encoded record |
| `Stereo.StereoCameraModel.Scale` | corelib/src/StereoCameraModel.cpp:163-167 | both monocular models become their scaled copies; name, R, T, E, F are unchanged |
| `Stereo.StereoCameraModel.ComputeDepth` | corelib/src/StereoCameraModel.cpp:169-178 | zero disparity gives 0; otherwise depth times (d + cx_right - cx_left) equals baseline*fx_left, and a zero shifted disparity gives a non-finite result |
| `Stereo.StereoCameraModel.ComputeDisparity` | corelib/src/StereoCameraModel.cpp:180-189 | zero depth gives 0; otherwise (disparity + cx_right - cx_left) times depth equals baseline*fx_left |
| `Stereo.StereoCameraModel.ComputeDisparityMillimetres` | corelib/src/StereoCameraModel.cpp:191-200 | the millimetre overload equals the real overload at depth/1000, including 0 at 0 |
| `Stereo.StereoCameraModel.DisparityOfDepth` | corelib/src/StereoCameraModel.cpp:169-189 | for d != 0, baseline*fx_left != 0 and d + cx_right - cx_left != 0, disparity of depth of d is d |
| `Stereo.StereoCameraModel.DepthOfDisparity` | corelib/src/StereoCameraModel.cpp:169-189 | for z != 0 and baseline*fx_left != 0, depth of disparity of z is z unless that disparity is exactly 0, which the guard maps back to 0 |
| `Stereo.StereoCameraModel.StereoTransform` | corelib/src/StereoCameraModel.cpp:202-212 | with R and T present, a 3x4 transform whose row i is R(i,0), R(i,1), R(i,2), T(i); otherwise the default transform |
| `Stereo.StereoCameraModel.StereoTransformBlocks` | corelib/src/StereoCameraModel.cpp:204-209 | the rotation block of the stereo transform is R and its translation column is T |
| `Stereo.SaveThenLoad` | corelib/src/StereoCameraModel.cpp:44-160 | saving a named model with all four extrinsics and loading it under that name restores R, T, E and F, both calls succeeding |

## Left out

- YAML text, `cv::FileStorage` and `UFile::exists`: a directory is a map from path to a pose record. A missing key in a pose file is modelled as the empty block it reads as, which the shape check refuses.
- Monocular model internals: only name, fx, fy, cx, cy and validity (all four positive) are kept. Its `load` and `save` are caller-supplied functions (`MonoLoader`, `MonoSaver`). The files they write are not modelled, so a monocular file whose path coincides with a pose path is not modelled either.
- `baseline()` and the `Transform` class are defined outside this file. The depth and disparity queries take the baseline as a parameter. A transform is its default value or its 3x4 rows.
- Logging (`UINFO`, `UWARN`) has no effect on the model's state.
- `UASSERT` on a pose block ends the process. `Load` returns `Aborted` and states nothing about the fields afterwards. `UASSERT(isValid())` in the depth and disparity queries is the precondition `IsValid()`.
- Stereo.StereoCameraModel.Load: the name after a successful pose read is `[nameChar]`. The character depends on the file-storage library's integer conversion and is not modelled.
- Stereo.StereoCameraModel.ComputeDepth: float (32-bit) rounding is not modelled. All depth/disparity arithmetic is over real numbers, and only a division by zero is distinguished (as `NonFinite`). The millimetre overload's `float` conversion, and the narrowing of the double matrices into the float `Transform`, are not modelled either.
- `int` overflow of rows*cols in the block check is not modelled. Rows and columns are unbounded integers.
- The header's constructors and copy semantics are not modelled. The model's one constructor builds the empty object: empty name, all four matrices empty, default monocular models.
