/**
 * The monocular camera model that the stereo model owns twice (left and
 * right). Only the part of its public contract that the stereo model uses
 * is modelled: a name, the focal lengths and principal point, validity,
 * renaming and rescaling. Its load and save read and write files, so they
 * enter the model as caller-supplied functions.
 */
module Monocular {

  datatype MonoModel = MonoModel(name: string, fx: real, fy: real, cx: real, cy: real)

  /** A calibrated model: positive focal lengths and principal point. */
  predicate IsValid(m: MonoModel)
  {
    m.fx > 0.0 && m.fy > 0.0 && m.cx > 0.0 && m.cy > 0.0
  }

  /** The monocular `setName`: only the name changes. */
  function WithName(m: MonoModel, n: string): MonoModel
  {
    m.(name := n)
  }

  /** The monocular `scaled(k)`: focal lengths and principal point multiplied by k. */
  function Scaled(m: MonoModel, k: real): MonoModel
  {
    MonoModel(m.name, m.fx * k, m.fy * k, m.cx * k, m.cy * k)
  }

  /** What the monocular `load(directory, cameraName)` returns and the model it leaves behind. */
  datatype MonoLoadResult = MonoLoadResult(ok: bool, model: MonoModel)

  /** The monocular `load`, given the model before the call, the directory and the camera name. */
  type MonoLoader = (MonoModel, string, string) -> MonoLoadResult

  /** The monocular `save`, given the model and the directory. */
  type MonoSaver = (MonoModel, string) -> bool
}
