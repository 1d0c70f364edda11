/**
 Attention in the rotated frame: rotating queries and keys by an orthonormal matrix and
 un-rotating the output is attention in the original frame.
 */
module RotatedFrame {
  import opened Vectors
  import opened Floats
  import opened Softmax
  import opened TileRecord
  import opened DecodeMemory
  import opened TileDecode
  import opened Hadamard

  /** `row.lat @ h`; the rope part is not rotated. */
  function RotateRow(row: Row, h: Matrix): (r: Row)
    requires IsMatrix(h, |h|, |h|) && |row.lat| == |h|
    ensures |r.lat| == |h| && r.rope == row.rope
  {
    Row(VecMat(row.lat, h, |h|), row.rope)
  }

  function RotateRows(rows: seq<Row>, g: Geometry, h: Matrix): (r: seq<Row>)
    requires IsMatrix(h, g.r, g.r) && RowsFit(rows, g)
    ensures |r| == |rows| && RowsFit(r, g)
    ensures forall t | 0 <= t < |rows| :: r[t] == RotateRow(rows[t], h)
  {
    seq(|rows|, t requires 0 <= t < |rows| => RotateRow(rows[t], h))
  }

  /** `row.lat @ h.t()`. */
  function UnrotateRows(rows: seq<Row>, g: Geometry, h: Matrix): (r: seq<Row>)
    requires IsMatrix(h, g.r, g.r) && RowsFit(rows, g)
    ensures |r| == |rows| && RowsFit(r, g)
    ensures forall t | 0 <= t < |rows| :: r[t] == Row(MatVec(h, rows[t].lat), rows[t].rope)
  {
    seq(|rows|, t requires 0 <= t < |rows| => Row(MatVec(h, rows[t].lat), rows[t].rope))
  }

  /** Plain attention over rows, in whatever frame they are given. */
  ghost function AttendRows(e: ExpLog, rows: seq<Row>, g: Geometry, q: Row, sm: real): (o: Vec)
    requires RowsFit(rows, g) && RowFits(q, g) && Mass(e, ScoresOf(rows, g, q, sm)) != 0.0
    ensures |o| == g.r
  {
    Attend(e, ScoresOf(rows, g, q, sm), LatsOf(rows, g), g.r)
  }

  /** What that is, said without scores and softmax. */
  lemma AttendRowsIsAttention(e: ExpLog, rows: seq<Row>, g: Geometry, q: Row, sm: real)
    requires Laws(e) && RowsFit(rows, g) && RowFits(q, g) && rows != []
    ensures Mass(e, ScoresOf(rows, g, q, sm)) > 0.0
    ensures Attends(e, KeysOf(rows, g), LatsOf(rows, g), q.lat + q.rope, sm,
                    AttendRows(e, rows, g, q, sm), LogSumExp(e, ScoresOf(rows, g, q, sm)))
  {
    hide Score, Attend, Mass, LogSumExp, Laws, Attends;
    ScoresAreDots(rows, g, q, sm);
    AttendIsAttention(e, KeysOf(rows, g), LatsOf(rows, g), q.lat + q.rope, sm, ScoresOf(rows, g, q, sm), g.r);
  }

  /**
   `decode_ref`: rotate the query, attend over the concatenated rotated tiles and tail, un-rotate.
   */
  ghost function DecodeRef(e: ExpLog, h: Matrix, full: seq<seq<Row>>, tail: seq<Row>, g: Geometry, q: Row, sm: real)
    : (o: Vec)
    requires IsMatrix(h, g.r, g.r) && RowFits(q, g) && RowsFit(Concat(full) + tail, g)
    requires Mass(e, ScoresOf(Concat(full) + tail, g, RotateRow(q, h), sm)) != 0.0
  {
    MatVec(h, AttendRows(e, Concat(full) + tail, g, RotateRow(q, h), sm))
  }

  ghost function Concat(tiles: seq<seq<Row>>): seq<Row> {
    if tiles == [] then [] else tiles[0] + Concat(tiles[1..])
  }

  lemma RotationKeepsScore(row: Row, q: Row, h: Matrix, sm: real)
    requires Orthonormal(h) && |row.lat| == |q.lat| == |h| && |row.rope| == |q.rope|
    ensures Score(RotateRow(q, h), RotateRow(row, h), sm) == Score(q, row, sm)
  {
    hide Dot, VecMat;
    RotationPreservesDot(row.lat, q.lat, h);
  }

  lemma RotationKeepsScores(rows: seq<Row>, g: Geometry, q: Row, h: Matrix, sm: real)
    requires Orthonormal(h) && |h| == g.r && RowsFit(rows, g) && RowFits(q, g)
    ensures ScoresOf(RotateRows(rows, g, h), g, RotateRow(q, h), sm) == ScoresOf(rows, g, q, sm)
  {
    hide Score, RotateRow, RotateRows, Orthonormal;
    assert IsMatrix(h, g.r, g.r) by { OrthonormalSquare(h); }
    forall t | 0 <= t < |rows|
      ensures Score(RotateRow(q, h), RotateRow(rows[t], h), sm) == Score(q, rows[t], sm)
    {
      RotationKeepsScore(rows[t], q, h, sm);
    }
  }

  lemma OrthonormalSquare(h: Matrix)
    requires Orthonormal(h)
    ensures IsMatrix(h, |h|, |h|)
  {
  }

  /** Un-rotating a combination of rotated rows gives the same combination of the originals. */
  lemma UnrotateCombination(p: Vec, ks: Matrix, h: Matrix)
    requires Orthonormal(h) && IsMatrix(ks, |p|, |h|)
    ensures MatVec(h, VecMat(p, MatMul(ks, h, |h|), |h|)) == VecMat(p, ks, |h|)
  {
    hide VecMat, MatVec, MatMul, Dot;
    VecMatAssociates(p, ks, h, |h|);
    UnrotateRotate(VecMat(p, ks, |h|), h);
  }

  /**
   The rotated frame preserves meaning: for any rows and query, attending over the rotated rows
   with the rotated query and un-rotating gives attention over the original rows.
   */
  lemma RotatedAttention(e: ExpLog, rows: seq<Row>, g: Geometry, q: Row, h: Matrix, sm: real)
    requires Laws(e) && Orthonormal(h) && |h| == g.r && RowsFit(rows, g) && RowFits(q, g) && rows != []
    ensures Mass(e, ScoresOf(rows, g, q, sm)) > 0.0
    ensures ScoresOf(RotateRows(rows, g, h), g, RotateRow(q, h), sm) == ScoresOf(rows, g, q, sm)
    ensures MatVec(h, AttendRows(e, RotateRows(rows, g, h), g, RotateRow(q, h), sm)) == AttendRows(e, rows, g, q, sm)
  {
    hide VecMat, Mass, Dot, RotateRow, ScoresOf, LatsOf, MatVec, Laws, SoftmaxOf;
    var scores := ScoresOf(rows, g, q, sm);
    MassPositive(e, scores);
    RotationKeepsScores(rows, g, q, h, sm);
    var rotated := RotateRows(rows, g, h);
    LatsRotated(rows, g, h);
    UnrotateCombination(SoftmaxOf(e, scores), LatsOf(rows, g), h);
  }

  lemma LatsRotated(rows: seq<Row>, g: Geometry, h: Matrix)
    requires IsMatrix(h, g.r, g.r) && RowsFit(rows, g)
    ensures LatsOf(RotateRows(rows, g, h), g) == MatMul(LatsOf(rows, g), h, |h|)
  {
    hide VecMat;
  }

  /** Rows stored in the rotated frame are the rotations of their un-rotated selves. */
  lemma StoredRowsAreRotations(stored: seq<Row>, g: Geometry, h: Matrix)
    requires Orthonormal(h) && Symmetric(h) && |h| == g.r && RowsFit(stored, g)
    ensures RotateRows(UnrotateRows(stored, g, h), g, h) == stored
  {
    hide VecMat, MatVec, Dot, Orthonormal, Symmetric;
    assert IsMatrix(h, g.r, g.r) by { OrthonormalSquare(h); }
    var back := RotateRows(UnrotateRows(stored, g, h), g, h);
    forall t | 0 <= t < |stored| ensures back[t] == stored[t] {
      RotateUnrotate(stored[t].lat, h);
    }
  }

  /**
   What a decode means, for any cache contents: the kernels' result for the rotated query,
   un-rotated, is original-frame attention over the un-rotated rows that the cache and pool hold.
   */
  lemma DecodeMeaning(l: Launch, q: Row, h: Matrix)
    requires ValidLaunch(l) && l.s.len >= 1 && RowFits(q, l.kv.g)
    requires Orthonormal(h) && Symmetric(h) && |h| == l.kv.g.r
    ensures var stored := TokenRows(l.kv, l.s, 0, l.s.len);
            var rows := UnrotateRows(stored, l.kv.g, h);
            && Mass(l.e, Scores(l, RotateRow(q, h), 0, l.s.len)) > 0.0
            && Mass(l.e, ScoresOf(rows, l.kv.g, q, l.sm)) > 0.0
            && MatVec(h, Attend(l.e, Scores(l, RotateRow(q, h), 0, l.s.len), Lats(l, 0, l.s.len), l.kv.g.r))
               == AttendRows(l.e, rows, l.kv.g, q, l.sm)
            && Scores(l, RotateRow(q, h), 0, l.s.len) == ScoresOf(rows, l.kv.g, q, l.sm)
  {
    hide Mass, Attend, TokenRows, LatsOf, ScoresOf, RotateRow, RotateRows, UnrotateRows, MatVec, Orthonormal,
         Symmetric, Laws, Readable;
    assert IsMatrix(h, l.kv.g.r, l.kv.g.r) by { OrthonormalSquare(h); }
    var stored := TokenRows(l.kv, l.s, 0, l.s.len);
    StoredRowsAreRotations(stored, l.kv.g, h);
    RotatedAttention(l.e, UnrotateRows(stored, l.kv.g, h), l.kv.g, q, h, l.sm);
  }

  /**
   With every token stored exactly (rotated, unquantised), the un-rotated decode is full-precision
   attention over the original latents.
   */
  lemma ExactStoreDecode(l: Launch, q: Row, h: Matrix, rows: seq<Row>)
    requires ValidLaunch(l) && l.s.len >= 1 && RowFits(q, l.kv.g)
    requires Orthonormal(h) && |h| == l.kv.g.r && |rows| == l.s.len && RowsFit(rows, l.kv.g)
    requires TokenRows(l.kv, l.s, 0, l.s.len) == RotateRows(rows, l.kv.g, h)
    ensures Mass(l.e, Scores(l, RotateRow(q, h), 0, l.s.len)) > 0.0
    ensures Mass(l.e, ScoresOf(rows, l.kv.g, q, l.sm)) > 0.0
    ensures MatVec(h, Attend(l.e, Scores(l, RotateRow(q, h), 0, l.s.len), Lats(l, 0, l.s.len), l.kv.g.r))
         == AttendRows(l.e, rows, l.kv.g, q, l.sm)
  {
    hide Mass, Attend, TokenRows, LatsOf, ScoresOf, RotateRow, RotateRows, MatVec, Laws, Readable, Dot;
    RotatedAttention(l.e, rows, l.kv.g, q, h, l.sm);
  }

  /** `decode_ref` over rotated tiles and tail is attention over the original tokens, in order. */
  lemma DecodeRefMeaning(e: ExpLog, h: Matrix, full: seq<seq<Row>>, tail: seq<Row>, rows: seq<Row>,
                         g: Geometry, q: Row, sm: real)
    requires Laws(e) && Orthonormal(h) && |h| == g.r && RowFits(q, g) && RowsFit(rows, g) && rows != []
    requires Concat(full) + tail == RotateRows(rows, g, h)
    ensures Mass(e, ScoresOf(Concat(full) + tail, g, RotateRow(q, h), sm)) > 0.0
    ensures Mass(e, ScoresOf(rows, g, q, sm)) > 0.0
    ensures DecodeRef(e, h, full, tail, g, q, sm) == AttendRows(e, rows, g, q, sm)
  {
    hide Mass, ScoresOf, RotateRow, RotateRows, MatVec, Laws, AttendRows, Concat;
    RotatedAttention(e, rows, g, q, h, sm);
  }

  /** With the matrix of the doubling loop, un-rotating rotated attention gives original attention. */
  method HadamardAttention(e: ExpLog, rows: seq<Row>, g: Geometry, q: Row, sm: real, root: real) returns (h: Matrix)
    requires Laws(e) && IsPow2(g.r) && root > 0.0 && root * root == g.r as real
    requires RowsFit(rows, g) && RowFits(q, g) && rows != []
    ensures Orthonormal(h) && Symmetric(h) && |h| == g.r
    ensures Mass(e, ScoresOf(rows, g, q, sm)) > 0.0
    ensures ScoresOf(RotateRows(rows, g, h), g, RotateRow(q, h), sm) == ScoresOf(rows, g, q, sm)
    ensures MatVec(h, AttendRows(e, RotateRows(rows, g, h), g, RotateRow(q, h), sm)) == AttendRows(e, rows, g, q, sm)
  {
    hide Orthonormal, Mass, ScoresOf, AttendRows, RotateRows, RotateRow, Laws, MatVec;
    Pow2Positive(g.r);
    h := BuildHadamard(g.r, root);
    RotatedAttention(e, rows, g, q, h, sm);
  }

  lemma Pow2Positive(n: nat)
    requires IsPow2(n)
    ensures n >= 1
  {
  }
}
