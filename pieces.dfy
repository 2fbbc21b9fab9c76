/** src/pieces.js: the seven tetrominoes as tile offsets, their rotation by quarter
    turns with re-normalisation, and drawing a random piece. */
module Pieces {
  import opened Utils

  datatype PieceType = I | O | T | S | Z | J | L

  /** `TYPES`, in the order the shapes are declared. */
  const Types: seq<PieceType> := [I, O, T, S, Z, J, L]

  type Offset = (int, int)

  /** A piece: its shape and its number of quarter turns. */
  datatype Piece = Piece(kind: PieceType, rot: int)

  /** `BASE`: every shape in its rotation 0, already normalised. */
  function Base(t: PieceType): seq<Offset>
  {
    match t
    case I => [(0, 0), (1, 0), (2, 0), (3, 0)]
    case O => [(0, 0), (1, 0), (0, 1), (1, 1)]
    case T => [(1, 0), (0, 1), (1, 1), (2, 1)]
    case S => [(1, 0), (2, 0), (0, 1), (1, 1)]
    case Z => [(0, 0), (1, 0), (1, 1), (2, 1)]
    case J => [(0, 0), (0, 1), (1, 1), (2, 1)]
    case L => [(2, 0), (0, 1), (1, 1), (2, 1)]
  }

  // ---------------------------------------------------------------------------
  // Specification functions

  /** The least x of a non-empty offset list, taken left to right. */
  function MinX(o: seq<Offset>): (m: int)
    requires |o| > 0
    ensures forall i :: 0 <= i < |o| ==> m <= o[i].0
    ensures exists i :: 0 <= i < |o| && m == o[i].0
  {
    if |o| == 1 then o[0].0
    else
      var m := MinX(o[..|o| - 1]);
      assert forall i :: 0 <= i < |o| - 1 ==> o[..|o| - 1][i] == o[i];
      if o[|o| - 1].0 < m then o[|o| - 1].0 else m
  }

  function MinY(o: seq<Offset>): (m: int)
    requires |o| > 0
    ensures forall i :: 0 <= i < |o| ==> m <= o[i].1
    ensures exists i :: 0 <= i < |o| && m == o[i].1
  {
    if |o| == 1 then o[0].1
    else
      var m := MinY(o[..|o| - 1]);
      assert forall i :: 0 <= i < |o| - 1 ==> o[..|o| - 1][i] == o[i];
      if o[|o| - 1].1 < m then o[|o| - 1].1 else m
  }

  /** Every offset moved by (-dx, -dy). */
  function Shift(o: seq<Offset>, dx: int, dy: int): (r: seq<Offset>)
    ensures |r| == |o|
  {
    seq(|o|, i requires 0 <= i < |o| => (o[i].0 - dx, o[i].1 - dy))
  }

  /** `normalize`: the list moved so that its least x and its least y are both 0. */
  function Normalized(o: seq<Offset>): seq<Offset>
  {
    if |o| == 0 then [] else Shift(o, MinX(o), MinY(o))
  }

  /** The quarter turn (x, y) -> (y, -x), before normalisation. */
  function Turn(o: seq<Offset>): (r: seq<Offset>)
    ensures |r| == |o|
  {
    seq(|o|, i requires 0 <= i < |o| => (o[i].1, -o[i].0))
  }

  /** `rotate90`. */
  function Rotated(o: seq<Offset>): seq<Offset>
  {
    Normalized(Turn(o))
  }

  function RotatedTimes(o: seq<Offset>, n: nat): seq<Offset>
  {
    if n == 0 then o else Rotated(RotatedTimes(o, n - 1))
  }

  /** The remainder of JavaScript's `%`, which takes the sign of the dividend. */
  function JsRem(a: int, b: int): (r: int)
    requires b > 0
    ensures -b < r < b
    ensures a >= 0 ==> r == a % b
  {
    if a >= 0 then a % b else -((-a) % b)
  }

  /** The rotation count `getOffsets` uses: rot reduced into [0, 4), negative
      values included. */
  function RotIndex(rot: int): int
  {
    (JsRem(rot, 4) + 4) % 4
  }

  /** `getOffsets(type, rot)`. */
  function Offsets(t: PieceType, rot: int): seq<Offset>
  {
    RotatedTimes(Base(t), RotIndex(rot))
  }

  predicate DistinctOffsets(o: seq<Offset>)
  {
    forall i, j :: 0 <= i < j < |o| ==> o[i] != o[j]
  }

  predicate NonNegative(o: seq<Offset>)
  {
    forall i :: 0 <= i < |o| ==> o[i].0 >= 0 && o[i].1 >= 0
  }

  // ---------------------------------------------------------------------------
  // The source's loops

  /** `normalize`: one pass for the least coordinates, then the shift. */
  method Normalize(o: seq<Offset>) returns (r: seq<Offset>)
    ensures r == Normalized(o)
  {
    if |o| == 0 {
      return [];
    }
    var minX, minY := o[0].0, o[0].1;
    for i := 1 to |o|
      invariant minX == MinX(o[..i]) && minY == MinY(o[..i])
    {
      assert o[..i + 1][..i] == o[..i];
      if o[i].0 < minX { minX := o[i].0; }
      if o[i].1 < minY { minY := o[i].1; }
    }
    assert o[..|o|] == o;
    r := seq(|o|, i requires 0 <= i < |o| => (o[i].0 - minX, o[i].1 - minY));
  }

  method Rotate90(o: seq<Offset>) returns (r: seq<Offset>)
    ensures r == Rotated(o)
  {
    var turned := seq(|o|, i requires 0 <= i < |o| => (o[i].1, -o[i].0));
    r := Normalize(turned);
  }

  /** `getOffsets`: the base shape turned RotIndex(rot) times. */
  method GetOffsets(t: PieceType, rot: int) returns (o: seq<Offset>)
    ensures o == Offsets(t, rot)
  {
    o := Base(t);
    var r := (JsRem(rot, 4) + 4) % 4;
    for i := 0 to r
      invariant o == RotatedTimes(Base(t), i)
    {
      o := Rotate90(o);
    }
  }

  /** `nextPiece`: a shape drawn uniformly by `int(0, 6)`, in rotation 0. */
  method NextPiece(rng: Rng) returns (p: Piece)
    requires rng.Valid()
    modifies rng
    ensures rng.Valid() && rng.seed == NextSeed(old(rng.seed))
    ensures p == Piece(Types[Draw(rng.seed, 0, |Types| - 1)], 0)
    ensures p.kind in Types && p.rot == 0
  {
    var k := rng.Int(0, |Types| - 1);
    p := Piece(Types[k], 0);
  }

  /** `rotatePiece`: same shape, one more quarter turn, wrapped by JavaScript's `%`. */
  function RotatePiece(p: Piece): (q: Piece)
    ensures q.kind == p.kind
    ensures p.rot >= 0 ==> q.rot == (p.rot + 1) % 4 && 0 <= q.rot < 4
    ensures Offsets(q.kind, q.rot) == Offsets(p.kind, p.rot + 1)
  {
    RotIndexRem(p.rot + 1);
    p.(rot := JsRem(p.rot + 1, 4))
  }

  // ---------------------------------------------------------------------------
  // Properties

  lemma RotIndexRem(rot: int)
    ensures RotIndex(JsRem(rot, 4)) == RotIndex(rot)
  {
  }

  /** The rotation count is rot modulo 4, negative rot included. */
  lemma RotIndexIsMod(rot: int)
    ensures RotIndex(rot) == rot % 4
  {
    if rot < 0 {
      var q, m := (-rot) / 4, (-rot) % 4;
      assert -rot == 4 * q + m && 0 <= m < 4;
      assert JsRem(rot, 4) == -m;
      if m == 0 {
        assert rot == 4 * (-q) + 0;
      } else {
        assert rot == 4 * (-q - 1) + (4 - m);
      }
    }
  }

  /** A full turn changes nothing: `getOffsets(t, r)` equals `getOffsets(t, r + 4)`. */
  lemma OffsetsPeriodic(t: PieceType, rot: int)
    ensures RotIndex(rot + 4) == RotIndex(rot)
    ensures Offsets(t, rot + 4) == Offsets(t, rot)
  {
    RotIndexIsMod(rot);
    RotIndexIsMod(rot + 4);
    assert (rot + 4) % 4 == rot % 4;
  }

  lemma {:induction false} MinShift(o: seq<Offset>, dx: int, dy: int)
    requires |o| > 0
    ensures MinX(Shift(o, dx, dy)) == MinX(o) - dx
    ensures MinY(Shift(o, dx, dy)) == MinY(o) - dy
  {
    var s := Shift(o, dx, dy);
    var i :| 0 <= i < |o| && MinX(o) == o[i].0;
    var j :| 0 <= j < |s| && MinX(s) == s[j].0;
    assert MinX(s) <= s[i].0 && MinX(o) <= o[j].0;
    var k :| 0 <= k < |o| && MinY(o) == o[k].1;
    var l :| 0 <= l < |s| && MinY(s) == s[l].1;
    assert MinY(s) <= s[k].1 && MinY(o) <= o[l].1;
  }

  /** `normalize` forgets translations. */
  lemma NormalizedShift(o: seq<Offset>, dx: int, dy: int)
    ensures Normalized(Shift(o, dx, dy)) == Normalized(o)
  {
    if |o| > 0 {
      var u := Shift(o, dx, dy);
      var mx, my := MinX(o), MinY(o);
      MinShift(o, dx, dy);
      assert Normalized(u) == Shift(u, mx - dx, my - dy);
      ShiftShift(o, dx, dy, mx, my);
    }
  }

  /** A move by (dx, dy) followed by one by (fx - dx, fy - dy) is one move by (fx, fy). */
  lemma ShiftShift(o: seq<Offset>, dx: int, dy: int, fx: int, fy: int)
    ensures Shift(Shift(o, dx, dy), fx - dx, fy - dy) == Shift(o, fx, fy)
  {
    var u := Shift(o, dx, dy);
    forall i | 0 <= i < |o| ensures Shift(u, fx - dx, fy - dy)[i] == Shift(o, fx, fy)[i] {
      assert u[i] == (o[i].0 - dx, o[i].1 - dy);
    }
  }

  /** A quarter turn of a moved list is a moved quarter turn. */
  lemma TurnShift(o: seq<Offset>, dx: int, dy: int)
    ensures Turn(Shift(o, dx, dy)) == Shift(Turn(o), dy, -dx)
  {
  }

  /** `normalize` puts the least x and the least y at 0, keeps the length and keeps
      every offset's position relative to every other. */
  lemma NormalizedProperties(o: seq<Offset>)
    requires |o| > 0
    ensures |Normalized(o)| == |o|
    ensures NonNegative(Normalized(o))
    ensures MinX(Normalized(o)) == 0 && MinY(Normalized(o)) == 0
    ensures forall i, j :: 0 <= i < |o| && 0 <= j < |o| ==>
      Normalized(o)[i].0 - Normalized(o)[j].0 == o[i].0 - o[j].0 &&
      Normalized(o)[i].1 - Normalized(o)[j].1 == o[i].1 - o[j].1
  {
    MinShift(o, MinX(o), MinY(o));
  }

  /** A list whose least coordinates are already 0 is its own normal form. */
  lemma NormalizedFixed(o: seq<Offset>)
    requires |o| > 0 && MinX(o) == 0 && MinY(o) == 0
    ensures Normalized(o) == o
  {
  }

  function TurnTimes(o: seq<Offset>, n: nat): (r: seq<Offset>)
    ensures |r| == |o|
  {
    if n == 0 then o else Turn(TurnTimes(o, n - 1))
  }

  /** Turning n times with normalisation after each turn is turning n times and
      normalising once. */
  lemma {:induction false} RotatedTimesIsTurnTimes(o: seq<Offset>, n: nat)
    requires n > 0
    ensures RotatedTimes(o, n) == Normalized(TurnTimes(o, n))
  {
    if n == 1 {
      assert RotatedTimes(o, 0) == o && TurnTimes(o, 1) == Turn(o);
    } else {
      RotatedTimesIsTurnTimes(o, n - 1);
      var p := TurnTimes(o, n - 1);
      assert TurnTimes(o, n) == Turn(p);
      if |p| > 0 {
        var mx, my := MinX(p), MinY(p);
        assert RotatedTimes(o, n - 1) == Shift(p, mx, my);
        RotatedShift(p, mx, my);
      } else {
        assert RotatedTimes(o, n - 1) == [];
      }
    }
  }

  /** Rotating a moved list is rotating the list. */
  lemma RotatedShift(p: seq<Offset>, dx: int, dy: int)
    ensures Rotated(Shift(p, dx, dy)) == Normalized(Turn(p))
  {
    TurnShift(p, dx, dy);
    NormalizedShift(Turn(p), dy, -dx);
  }

  lemma TurnFour(o: seq<Offset>)
    ensures TurnTimes(o, 4) == o
  {
    var t1 := Turn(o);
    var t2 := Turn(t1);
    var t3 := Turn(t2);
    var t4 := Turn(t3);
    assert TurnTimes(o, 1) == t1;
    assert TurnTimes(o, 2) == t2;
    assert TurnTimes(o, 3) == t3;
    assert TurnTimes(o, 4) == t4;
    forall i | 0 <= i < |o| ensures t4[i] == o[i] {
      assert t1[i] == (o[i].1, -o[i].0);
      assert t2[i] == (-o[i].0, -o[i].1);
      assert t3[i] == (-o[i].1, o[i].0);
    }
  }

  /** Four quarter turns bring every shape back to its base offsets, in order. */
  lemma FourTurnsIdentity(t: PieceType)
    ensures RotatedTimes(Base(t), 4) == Base(t)
    ensures forall rot :: RotIndex(rot) == 0 ==> Offsets(t, rot) == Base(t)
  {
    RotatedTimesIsTurnTimes(Base(t), 4);
    TurnFour(Base(t));
    BaseNormalized(t);
    NormalizedFixed(Base(t));
  }

  lemma BaseNormalized(t: PieceType)
    ensures |Base(t)| == 4
    ensures MinX(Base(t)) == 0 && MinY(Base(t)) == 0
    ensures NonNegative(Base(t)) && DistinctOffsets(Base(t))
  {
    BaseWellFormed(t);
    var b := Base(t);
    match t
    case I => MinZero(b, 0, 0);
    case O => MinZero(b, 0, 0);
    case T => MinZero(b, 1, 0);
    case S => MinZero(b, 2, 0);
    case Z => MinZero(b, 0, 0);
    case J => MinZero(b, 0, 0);
    case L => MinZero(b, 1, 0);
  }

  lemma BaseWellFormed(t: PieceType)
    ensures |Base(t)| == 4
    ensures NonNegative(Base(t)) && DistinctOffsets(Base(t))
  {
  }

  lemma MinZero(o: seq<Offset>, i: int, j: int)
    requires |o| > 0 && NonNegative(o)
    requires 0 <= i < |o| && o[i].0 == 0 && 0 <= j < |o| && o[j].1 == 0
    ensures MinX(o) == 0 && MinY(o) == 0
  {
    var m :| 0 <= m < |o| && MinX(o) == o[m].0;
    var n :| 0 <= n < |o| && MinY(o) == o[n].1;
  }

  /** A quarter turn with normalisation keeps the offsets distinct. */
  lemma RotatedDistinct(o: seq<Offset>)
    requires DistinctOffsets(o)
    ensures DistinctOffsets(Rotated(o)) && |Rotated(o)| == |o|
  {
    var u := Turn(o);
    if |u| > 0 {
      forall i, j | 0 <= i < j < |u| ensures Rotated(o)[i] != Rotated(o)[j] {
        assert u[i] != u[j];
      }
    }
  }

  lemma {:induction false} RotatedTimesShape(o: seq<Offset>, n: nat)
    requires |o| > 0 && DistinctOffsets(o) && NonNegative(o)
    ensures |RotatedTimes(o, n)| == |o|
    ensures DistinctOffsets(RotatedTimes(o, n)) && NonNegative(RotatedTimes(o, n))
  {
    if n > 0 {
      RotatedTimesShape(o, n - 1);
      RotatedDistinct(RotatedTimes(o, n - 1));
      NormalizedProperties(Turn(RotatedTimes(o, n - 1)));
    }
  }

  /** Every shape in every rotation is four distinct cells with non-negative
      offsets. */
  lemma OffsetsShape(t: PieceType, rot: int)
    ensures |Offsets(t, rot)| == 4
    ensures DistinctOffsets(Offsets(t, rot)) && NonNegative(Offsets(t, rot))
  {
    BaseNormalized(t);
    RotatedTimesShape(Base(t), RotIndex(rot));
  }
}
