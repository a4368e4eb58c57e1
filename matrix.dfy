/**
 * Dense matrices of doubles as the stereo model stores them (one row-major
 * buffer, like OpenCV's continuous CV_64FC1 matrices), and the
 * `{rows, cols, data}` block in which the pose file keeps each of them.
 */
module Matrix {
  import opened Wrappers

  /** A `rows` x `cols` matrix whose elements are `data`, row after row. */
  datatype Mat = Mat(rows: nat, cols: nat, data: seq<real>)

  /** The buffer holds exactly one value per element. */
  predicate WellFormed(m: Mat)
  {
    |m.data| == m.rows * m.cols
  }

  predicate HasShape(m: Mat, rows: nat, cols: nat)
  {
    WellFormed(m) && m.rows == rows && m.cols == cols
  }

  /** An optional matrix field: empty, or a well-formed matrix of the given shape. */
  predicate EmptyOrShaped(m: Option<Mat>, rows: nat, cols: nat)
  {
    m.Some? ==> HasShape(m.value, rows, cols)
  }

  /** Element (i, j) of a row-major matrix sits at offset i * cols + j. */
  lemma {:induction false} RowMajorOffsetInRange(rows: nat, cols: nat, i: nat, j: nat)
    requires i < rows && j < cols
    ensures i * cols + j < rows * cols
  {
    assert (i + 1) * cols <= rows * cols by {
      MulMonotone(i + 1, rows, cols);
    }
  }

  lemma MulMonotone(a: nat, b: nat, c: nat)
    requires a <= b
    ensures a * c <= b * c
  {
  }

  /** Distinct elements of a row-major matrix have distinct offsets. */
  lemma {:induction false} RowMajorOffsetInjective(cols: nat, i: nat, j: nat, i': nat, j': nat)
    requires j < cols && j' < cols
    requires i * cols + j == i' * cols + j'
    ensures i == i' && j == j'
  {
    if i < i' {
      assert (i + 1) * cols <= i' * cols by { MulMonotone(i + 1, i', cols); }
      assert false;
    } else if i' < i {
      assert (i' + 1) * cols <= i * cols by { MulMonotone(i' + 1, i, cols); }
      assert false;
    }
  }

  /** Element (i, j), rtabmap's `m.at<double>(i, j)`. */
  function At(m: Mat, i: nat, j: nat): real
    requires WellFormed(m) && i < m.rows && j < m.cols
  {
    RowMajorOffsetInRange(m.rows, m.cols, i, j);
    m.data[i * m.cols + j]
  }

  /** A matrix as the pose file stores it: the `rows`, `cols` and `data` keys of one node. */
  datatype Block = Block(rows: int, cols: int, data: seq<real>)

  /**
   * How `save` writes a matrix field: its row and column counts and its
   * rows * cols elements in row-major order. An empty field (a default
   * cv::Mat) writes zero rows, zero columns and no data.
   */
  function Encode(m: Option<Mat>): (b: Block)
    requires m.Some? ==> WellFormed(m.value)
    ensures m.None? ==> b == Block(0, 0, [])
    ensures m.Some? ==> b.rows == m.value.rows && b.cols == m.value.cols
    ensures m.Some? ==> |b.data| == m.value.rows * m.value.cols
  {
    match m
    case None => Block(0, 0, [])
    case Some(x) => Block(x.rows, x.cols, x.data[..x.rows * x.cols])
  }

  /** The written data lists element (i, j) at offset i * cols + j. */
  lemma EncodeAt(m: Mat, i: nat, j: nat)
    requires WellFormed(m) && i < m.rows && j < m.cols
    ensures i * m.cols + j < |Encode(Some(m)).data|
    ensures Encode(Some(m)).data[i * m.cols + j] == At(m, i, j)
  {
    RowMajorOffsetInRange(m.rows, m.cols, i, j);
  }

  /**
   * How `load` reads a block that must have shape `rows` x `cols`. Both of
   * the C++ checks (the element count is rows * cols, and the shape is
   * the expected one) are fatal assertions; a block failing either yields
   * None.
   */
  function Decode(b: Block, rows: nat, cols: nat): (r: Option<Mat>)
    ensures r.Some? <==> b.rows * b.cols == |b.data| && b.rows == rows && b.cols == cols
    ensures r.Some? ==> HasShape(r.value, rows, cols)
  {
    if b.rows * b.cols != |b.data| then None
    else if !(b.rows == rows && b.cols == cols) then None
    else Some(Mat(rows, cols, b.data))
  }

  /** A block read back successfully has element (i, j) taken from offset i * cols + j. */
  lemma DecodeAt(b: Block, rows: nat, cols: nat, i: nat, j: nat)
    requires Decode(b, rows, cols).Some? && i < rows && j < cols
    ensures i * cols + j < |b.data|
    ensures At(Decode(b, rows, cols).value, i, j) == b.data[i * cols + j]
  {
    RowMajorOffsetInRange(rows, cols, i, j);
  }

  /** Distinct elements of a read matrix come from distinct positions of the block's data. */
  lemma DecodeOffsetsDistinct(b: Block, rows: nat, cols: nat, i: nat, j: nat, i': nat, j': nat)
    requires Decode(b, rows, cols).Some?
    requires i < rows && j < cols && i' < rows && j' < cols
    requires i != i' || j != j'
    ensures i * cols + j != i' * cols + j'
  {
    if i * cols + j == i' * cols + j' {
      RowMajorOffsetInjective(cols, i, j, i', j');
    }
  }

  /** Every value of a read block's data is some element of the matrix: the one at row k / cols, column k % cols. */
  lemma DecodeReadsEveryValue(b: Block, rows: nat, cols: nat, k: nat)
    requires Decode(b, rows, cols).Some? && k < |b.data|
    ensures k / cols < rows && k % cols < cols
    ensures At(Decode(b, rows, cols).value, k / cols, k % cols) == b.data[k]
  {
    assert cols > 0;
    var i, j := k / cols, k % cols;
    assert k == i * cols + j;
    if i >= rows {
      MulMonotone(rows, i, cols);
      assert false;
    }
    DecodeAt(b, rows, cols, i, j);
  }

  /** Writing a matrix of the expected shape and reading it back gives the same matrix. */
  lemma DecodeEncode(m: Mat, rows: nat, cols: nat)
    requires HasShape(m, rows, cols)
    ensures Decode(Encode(Some(m)), rows, cols) == Some(m)
  {
    assert m.data[..m.rows * m.cols] == m.data;
  }

  /** Every block that reads back successfully is exactly what writing its matrix produces. */
  lemma EncodeDecode(b: Block, rows: nat, cols: nat)
    requires Decode(b, rows, cols).Some?
    ensures Encode(Decode(b, rows, cols)) == b
  {
  }

  /** An empty field writes a block that a read expecting a non-empty shape refuses. */
  lemma EmptyIsRefused(rows: nat, cols: nat)
    requires rows > 0 && cols > 0
    ensures Decode(Encode(None), rows, cols) == None
  {
  }
}
