/**
 * rtabmap's StereoCameraModel: a name, the left and right monocular models
 * and the optional extrinsic matrices R, T, E and F; naming, loading and
 * saving the pose file, scaling, the depth and disparity conversions and
 * the stereo transform.
 */
module Stereo {
  import opened Wrappers
  import opened Matrix
  import Monocular
  import opened PoseFile

  /**
   * How `load` ends: it returns a boolean, or one of the fatal shape
   * assertions on the pose file's blocks stops the process.
   */
  datatype LoadOutcome = Returned(ok: bool) | Aborted

  /**
   * The value of a floating-point division: a real number, or the infinity
   * or NaN that a division by zero produces.
   */
  datatype FloatResult = Finite(value: real) | NonFinite

  /** The rigid transform class: either its default value, or the 3 x 4 matrix [R | t] by rows. */
  datatype Transform = DefaultTransform | Rigid(rows: seq<seq<real>>)

  /** A depth in millimetres as depth sensors report it. */
  newtype UShort = x: int | 0 <= x < 0x1_0000

  class StereoCameraModel {
    var name: string
    var left: Monocular.MonoModel
    var right: Monocular.MonoModel
    var R: Option<Mat>
    var T: Option<Mat>
    var E: Option<Mat>
    var F: Option<Mat>

    /** The empty model: no name, default monocular models, all four matrices empty. */
    constructor ()
      ensures Valid()
      ensures name == "" && R == None && T == None && E == None && F == None
      ensures left == Monocular.MonoModel("", 0.0, 0.0, 0.0, 0.0)
      ensures right == Monocular.MonoModel("", 0.0, 0.0, 0.0, 0.0)
    {
      name := "";
      left := Monocular.MonoModel("", 0.0, 0.0, 0.0, 0.0);
      right := Monocular.MonoModel("", 0.0, 0.0, 0.0, 0.0);
      R, T, E, F := None, None, None, None;
    }

    /** Each extrinsic matrix is empty or has its calibration shape. */
    ghost predicate Valid()
      reads this
    {
      EmptyOrShaped(R, 3, 3) && EmptyOrShaped(T, 3, 1) &&
      EmptyOrShaped(E, 3, 3) && EmptyOrShaped(F, 3, 3)
    }

    /** rtabmap's `isValid()`: both monocular models are valid. */
    predicate IsValid()
      reads this
    {
      Monocular.IsValid(left) && Monocular.IsValid(right)
    }

    /** Renames the model and both monocular models; nothing else changes. */
    method SetName(n: string)
      requires Valid()
      modifies this`name, this`left, this`right
      ensures Valid()
      ensures name == n
      ensures left == Monocular.WithName(old(left), n + "_left")
      ensures right == Monocular.WithName(old(right), n + "_right")
      ensures R == old(R) && T == old(T) && E == old(E) && F == old(F)
    {
      name := n;
      left := Monocular.WithName(left, name + "_left");
      right := Monocular.WithName(right, name + "_right");
    }

    /**
     * Loads both monocular models and, unless `ignoreStereoTransform`,
     * the pose file `{directory}/{cameraName}_pose.yaml` from `poses`.
     * `monoLoad` is the monocular load. `nameChar` is the character that
     * the C++ integer read of the file's `camera_name` field turns
     * into: assigning an int to a std::string makes it that one character.
     */
    method Load(directory: string, cameraName: string, ignoreStereoTransform: bool,
                monoLoad: Monocular.MonoLoader, poses: PoseStore, nameChar: char)
      returns (r: LoadOutcome)
      requires Valid()
      modifies this
      ensures r.Returned? ==> Valid()
      // the left model is always loaded, the right one only after the left succeeded
      ensures left == monoLoad(old(left), directory, cameraName + "_left").model
      ensures right == if monoLoad(old(left), directory, cameraName + "_left").ok
                       then monoLoad(old(right), directory, cameraName + "_right").model
                       else old(right)
      // a failed monocular load, or ignoreStereoTransform, leaves the extrinsics alone
      ensures !(monoLoad(old(left), directory, cameraName + "_left").ok &&
                monoLoad(old(right), directory, cameraName + "_right").ok) ==>
                r == Returned(false) && name == cameraName &&
                R == old(R) && T == old(T) && E == old(E) && F == old(F)
      ensures monoLoad(old(left), directory, cameraName + "_left").ok &&
              monoLoad(old(right), directory, cameraName + "_right").ok &&
              ignoreStereoTransform ==>
                r == Returned(true) && name == cameraName &&
                R == old(R) && T == old(T) && E == old(E) && F == old(F)
      // a missing pose file fails the load with R and T cleared, E and F kept
      ensures monoLoad(old(left), directory, cameraName + "_left").ok &&
              monoLoad(old(right), directory, cameraName + "_right").ok &&
              !ignoreStereoTransform && PosePath(directory, cameraName) !in poses ==>
                r == Returned(false) && name == cameraName &&
                R == None && T == None && E == old(E) && F == old(F)
      // a present pose file either loads all four matrices or aborts
      ensures monoLoad(old(left), directory, cameraName + "_left").ok &&
              monoLoad(old(right), directory, cameraName + "_right").ok &&
              !ignoreStereoTransform && PosePath(directory, cameraName) in poses ==>
                r != Returned(false) &&
                (r == Returned(true) <==> DecodePose(poses[PosePath(directory, cameraName)]).Some?)
      ensures monoLoad(old(left), directory, cameraName + "_left").ok &&
              monoLoad(old(right), directory, cameraName + "_right").ok &&
              !ignoreStereoTransform && PosePath(directory, cameraName) in poses &&
              r == Returned(true) ==>
                name == [nameChar] &&
                var x := DecodePose(poses[PosePath(directory, cameraName)]).value;
                R == Some(x.rotation) && T == Some(x.translation) &&
                E == Some(x.essential) && F == Some(x.fundamental)
    {
      name := cameraName;
      var l := monoLoad(left, directory, cameraName + "_left");
      left := l.model;
      if !l.ok {
        return Returned(false);
      }
      var rt := monoLoad(right, directory, cameraName + "_right");
      right := rt.model;
      if !rt.ok {
        return Returned(false);
      }
      if ignoreStereoTransform {
        return Returned(true);
      }
      R := None;
      T := None;
      var filePath := PosePath(directory, cameraName);
      if filePath !in poses {
        return Returned(false);
      }
      var rec := poses[filePath];
      name := [nameChar];
      var m := Decode(rec.rotation, 3, 3);
      if m.None? {
        return Aborted;
      }
      R := m;
      m := Decode(rec.translation, 3, 1);
      if m.None? {
        return Aborted;
      }
      T := m;
      m := Decode(rec.essential, 3, 3);
      if m.None? {
        return Aborted;
      }
      E := m;
      m := Decode(rec.fundamental, 3, 3);
      if m.None? {
        return Aborted;
      }
      F := m;
      return Returned(true);
    }

    /**
     * Saves both monocular models with `monoSave` and, unless
     * `ignoreStereoTransform`, writes the pose file into `poses`. Returns
     * whether it succeeded and the pose files present afterwards. Without a
     * name, R or T nothing is written and the result is false.
     */
    method Save(directory: string, ignoreStereoTransform: bool,
                monoSave: Monocular.MonoSaver, poses: PoseStore)
      returns (ok: bool, written: PoseStore)
      requires Valid()
      ensures !(monoSave(left, directory) && monoSave(right, directory)) ==> !ok && written == poses
      ensures monoSave(left, directory) && monoSave(right, directory) && ignoreStereoTransform ==>
        ok && written == poses
      ensures monoSave(left, directory) && monoSave(right, directory) && !ignoreStereoTransform ==>
        (ok <==> name != "" && R.Some? && T.Some?)
      ensures ok && !ignoreStereoTransform ==>
        written.Keys == poses.Keys + {PosePath(directory, name)} &&
        written[PosePath(directory, name)] == EncodePose(name, R, T, E, F) &&
        forall p :: p in poses && p != PosePath(directory, name) ==> written[p] == poses[p]
      ensures !ok ==> written == poses
    {
      written := poses;
      if monoSave(left, directory) && monoSave(right, directory) {
        if ignoreStereoTransform {
          return true, written;
        }
        var filePath := PosePath(directory, name);
        if filePath != "" && name != "" && R.Some? && T.Some? {
          written := written[filePath := EncodePose(name, R, T, E, F)];
          return true, written;
        }
      }
      return false, written;
    }

    /** Replaces both monocular models with their rescaled copies; the extrinsics are physical and stay. */
    method Scale(k: real)
      requires Valid()
      modifies this`left, this`right
      ensures Valid()
      ensures left == Monocular.Scaled(old(left), k) && right == Monocular.Scaled(old(right), k)
      ensures name == old(name)
      ensures R == old(R) && T == old(T) && E == old(E) && F == old(F)
    {
      left := Monocular.Scaled(left, k);
      right := Monocular.Scaled(right, k);
    }

    /**
     * Depth from disparity, `baseline` being the model's `baseline()`:
     * zero disparity gives depth zero; otherwise depth times the disparity
     * shifted by cx_right - cx_left is baseline * fx_left, and a zero
     * shifted disparity gives a non-finite value.
     */
    function ComputeDepth(baseline: real, disparity: real): (z: FloatResult)
      reads this
      requires IsValid()
      ensures disparity == 0.0 ==> z == Finite(0.0)
      ensures disparity != 0.0 ==> (z.Finite? <==> disparity + right.cx - left.cx != 0.0)
      ensures disparity != 0.0 && z.Finite? ==>
        z.value * (disparity + right.cx - left.cx) == baseline * left.fx
    {
      if disparity == 0.0 then Finite(0.0)
      else if disparity + right.cx - left.cx == 0.0 then NonFinite
      else Finite(baseline * left.fx / (disparity + right.cx - left.cx))
    }

    /**
     * Disparity from depth: zero depth gives disparity zero; otherwise the
     * disparity shifted by cx_right - cx_left, times the depth, is
     * baseline * fx_left.
     */
    function ComputeDisparity(baseline: real, depth: real): (d: real)
      reads this
      requires IsValid()
      ensures depth == 0.0 ==> d == 0.0
      ensures depth != 0.0 ==> (d + right.cx - left.cx) * depth == baseline * left.fx
    {
      if depth == 0.0 then 0.0
      else baseline * left.fx / depth - right.cx + left.cx
    }

    /** Disparity from a depth in millimetres: the same as from that depth in metres. */
    function ComputeDisparityMillimetres(baseline: real, depth: UShort): (d: real)
      reads this
      requires IsValid()
      ensures d == ComputeDisparity(baseline, depth as real / 1000.0)
    {
      if depth == 0 then 0.0
      else baseline * left.fx / (depth as real / 1000.0) - right.cx + left.cx
    }

    /** Converting a nonzero disparity to depth and back gives the disparity. */
    lemma DisparityOfDepth(baseline: real, disparity: real)
      requires IsValid()
      requires disparity != 0.0 && baseline * left.fx != 0.0
      requires disparity + right.cx - left.cx != 0.0
      ensures ComputeDepth(baseline, disparity).Finite?
      ensures ComputeDisparity(baseline, ComputeDepth(baseline, disparity).value) == disparity
    {
    }

    /**
     * Converting a nonzero depth to disparity and back gives the depth,
     * unless the disparity is exactly zero, which the zero guard maps to
     * depth zero.
     */
    lemma DepthOfDisparity(baseline: real, depth: real)
      requires IsValid()
      requires depth != 0.0 && baseline * left.fx != 0.0
      ensures ComputeDisparity(baseline, depth) != 0.0 ==>
        ComputeDepth(baseline, ComputeDisparity(baseline, depth)) == Finite(depth)
      ensures ComputeDisparity(baseline, depth) == 0.0 ==>
        ComputeDepth(baseline, ComputeDisparity(baseline, depth)) == Finite(0.0)
    {
    }

    /**
     * The rigid transform [R | T] when both R and T are present, row i
     * being R(i,0), R(i,1), R(i,2), T(i); the default transform otherwise.
     */
    function StereoTransform(): (t: Transform)
      reads this
      requires Valid()
      ensures R.None? || T.None? ==> t == DefaultTransform
      ensures R.Some? && T.Some? ==>
        t.Rigid? && |t.rows| == 3 &&
        forall i: nat {:trigger t.rows[i]} :: i < 3 ==>
          t.rows[i] == [At(R.value, i, 0), At(R.value, i, 1), At(R.value, i, 2), At(T.value, i, 0)]
    {
      if R.Some? && T.Some? then
        var r, tr := R.value, T.value;
        Rigid([
          [At(r, 0, 0), At(r, 0, 1), At(r, 0, 2), At(tr, 0, 0)],
          [At(r, 1, 0), At(r, 1, 1), At(r, 1, 2), At(tr, 1, 0)],
          [At(r, 2, 0), At(r, 2, 1), At(r, 2, 2), At(tr, 2, 0)]])
      else
        DefaultTransform
    }

    /** The rotation and translation blocks of the stereo transform are R and T themselves. */
    lemma StereoTransformBlocks()
      requires Valid() && R.Some? && T.Some?
      ensures RotationOf(StereoTransform()) == R.value
      ensures TranslationOf(StereoTransform()) == T.value
    {
    }
  }

  /** The 3 x 3 rotation block of a rigid transform, row-major. */
  function RotationOf(t: Transform): (m: Mat)
    requires t.Rigid? && |t.rows| == 3 && forall i :: 0 <= i < 3 ==> |t.rows[i]| == 4
    ensures HasShape(m, 3, 3)
  {
    var a := t.rows;
    Mat(3, 3, [a[0][0], a[0][1], a[0][2], a[1][0], a[1][1], a[1][2], a[2][0], a[2][1], a[2][2]])
  }

  /** The 3 x 1 translation column of a rigid transform. */
  function TranslationOf(t: Transform): (m: Mat)
    requires t.Rigid? && |t.rows| == 3 && forall i :: 0 <= i < 3 ==> |t.rows[i]| == 4
    ensures HasShape(m, 3, 1)
  {
    Mat(3, 1, [t.rows[0][3], t.rows[1][3], t.rows[2][3]])
  }

  /**
   * Saving a model with a name and all four extrinsics, then loading it
   * under that name from the same directory, restores R, T, E and F.
   */
  method SaveThenLoad(s: StereoCameraModel, directory: string,
                      monoSave: Monocular.MonoSaver, monoLoad: Monocular.MonoLoader,
                      poses: PoseStore, nameChar: char)
    returns (saved: bool, loaded: LoadOutcome)
    requires s.Valid() && s.name != ""
    requires s.R.Some? && s.T.Some? && s.E.Some? && s.F.Some?
    requires monoSave(s.left, directory) && monoSave(s.right, directory)
    requires monoLoad(s.left, directory, s.name + "_left").ok
    requires monoLoad(s.right, directory, s.name + "_right").ok
    modifies s
    ensures saved && loaded == Returned(true)
    ensures s.R == old(s.R) && s.T == old(s.T) && s.E == old(s.E) && s.F == old(s.F)
  {
    var written;
    saved, written := s.Save(directory, false, monoSave, poses);
    PoseRoundTrip(s.name, s.R.value, s.T.value, s.E.value, s.F.value);
    loaded := s.Load(directory, s.name, false, monoLoad, written, nameChar);
  }
}
