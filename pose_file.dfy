/**
 * The stereo pose file `{directory}/{name}_pose.yaml` in the ROS
 * calibration layout: a camera name and the rotation, translation,
 * essential and fundamental matrices, each a `{rows, cols, data}` block.
 * A directory is modelled as the map from path to the pose records it holds.
 */
module PoseFile {
  import opened Wrappers
  import opened Matrix

  datatype PoseRecord = PoseRecord(
    cameraName: string,
    rotation: Block,
    translation: Block,
    essential: Block,
    fundamental: Block)

  /** The pose files present on disk, by path. */
  type PoseStore = map<string, PoseRecord>

  /**
   * The pose file of camera `name` in `directory`: the directory, a slash,
   * the name, then the suffix; the name can be read back from the path.
   */
  function PosePath(directory: string, name: string): (p: string)
    ensures |p| == |directory| + |name| + 11
    ensures p[..|directory|] == directory && p[|directory|] == '/'
    ensures p[|directory| + 1..|directory| + 1 + |name|] == name
    ensures p[|directory| + 1 + |name|..] == "_pose.yaml"
  {
    directory + "/" + name + "_pose.yaml"
  }

  /** Within one directory, different camera names have different pose files. */
  lemma PosePathInjective(directory: string, a: string, b: string)
    requires PosePath(directory, a) == PosePath(directory, b)
    ensures a == b
  {
  }

  /** The four matrices a complete pose file holds. */
  datatype Extrinsics = Extrinsics(rotation: Mat, translation: Mat, essential: Mat, fundamental: Mat)

  /**
   * The record `save` writes for the given name and matrix fields: the
   * name, and four blocks each of which reads back, at its calibration
   * shape, as the field it came from (an empty field as a refused block).
   */
  function EncodePose(name: string, r: Option<Mat>, t: Option<Mat>, e: Option<Mat>, f: Option<Mat>): (p: PoseRecord)
    requires EmptyOrShaped(r, 3, 3) && EmptyOrShaped(t, 3, 1)
    requires EmptyOrShaped(e, 3, 3) && EmptyOrShaped(f, 3, 3)
    ensures p.cameraName == name
    ensures Decode(p.rotation, 3, 3) == r && Decode(p.translation, 3, 1) == t
    ensures Decode(p.essential, 3, 3) == e && Decode(p.fundamental, 3, 3) == f
  {
    FieldRoundTrip(r, 3, 3);
    FieldRoundTrip(t, 3, 1);
    FieldRoundTrip(e, 3, 3);
    FieldRoundTrip(f, 3, 3);
    PoseRecord(name, Encode(r), Encode(t), Encode(e), Encode(f))
  }

  /** An optional field written and read at its calibration shape comes back unchanged. */
  lemma FieldRoundTrip(m: Option<Mat>, rows: nat, cols: nat)
    requires rows > 0 && cols > 0 && EmptyOrShaped(m, rows, cols)
    ensures Decode(Encode(m), rows, cols) == m
  {
    match m
    case None => EmptyIsRefused(rows, cols);
    case Some(x) => DecodeEncode(x, rows, cols);
  }

  /**
   * The four blocks of a pose record as `load` reads them, in file order:
   * rotation and essential and fundamental must be 3 x 3, translation
   * 3 x 1. None stands for the fatal assertion on the first block that
   * fails.
   */
  function DecodePose(rec: PoseRecord): (x: Option<Extrinsics>)
    ensures x.Some? <==>
      Decode(rec.rotation, 3, 3).Some? && Decode(rec.translation, 3, 1).Some? &&
      Decode(rec.essential, 3, 3).Some? && Decode(rec.fundamental, 3, 3).Some?
    ensures x.Some? ==>
      HasShape(x.value.rotation, 3, 3) && HasShape(x.value.translation, 3, 1) &&
      HasShape(x.value.essential, 3, 3) && HasShape(x.value.fundamental, 3, 3)
    // each matrix holds exactly the data of its block
    ensures x.Some? ==>
      x.value.rotation.data == rec.rotation.data && x.value.translation.data == rec.translation.data &&
      x.value.essential.data == rec.essential.data && x.value.fundamental.data == rec.fundamental.data
  {
    match (Decode(rec.rotation, 3, 3), Decode(rec.translation, 3, 1),
           Decode(rec.essential, 3, 3), Decode(rec.fundamental, 3, 3))
    case (Some(r), Some(t), Some(e), Some(f)) => Some(Extrinsics(r, t, e, f))
    case _ => None
  }

  /** Writing four matrices of the right shapes and reading the record back gives them back. */
  lemma PoseRoundTrip(name: string, r: Mat, t: Mat, e: Mat, f: Mat)
    requires HasShape(r, 3, 3) && HasShape(t, 3, 1) && HasShape(e, 3, 3) && HasShape(f, 3, 3)
    ensures DecodePose(EncodePose(name, Some(r), Some(t), Some(e), Some(f))) == Some(Extrinsics(r, t, e, f))
  {
  }

  /** Every record that loads is the record `save` writes for its name and its four matrices. */
  lemma PoseEncodeDecode(rec: PoseRecord)
    requires DecodePose(rec).Some?
    ensures var x := DecodePose(rec).value;
      EncodePose(rec.cameraName, Some(x.rotation), Some(x.translation), Some(x.essential), Some(x.fundamental)) == rec
  {
  }

  /**
   * A written record reads back exactly when none of the four fields was
   * empty: `save` writes an empty essential or fundamental matrix as a
   * 0 x 0 block, which a later `load` refuses.
   */
  lemma WrittenPoseReadable(name: string, r: Option<Mat>, t: Option<Mat>, e: Option<Mat>, f: Option<Mat>)
    requires EmptyOrShaped(r, 3, 3) && EmptyOrShaped(t, 3, 1)
    requires EmptyOrShaped(e, 3, 3) && EmptyOrShaped(f, 3, 3)
    ensures DecodePose(EncodePose(name, r, t, e, f)).Some? <==> r.Some? && t.Some? && e.Some? && f.Some?
  {
  }
}
