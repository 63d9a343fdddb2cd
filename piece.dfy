/**
 * A piece instance: a kind plus a rotation index into the kind's list of
 * states, with the current shape kept in a field that `Rotate` updates in
 * place (src/core/piece.py; the same class is repeated in src/tetris_main.py).
 */
module Pieces {
  import opened Shapes

  /** The rotation index `Rotate` moves to: the square keeps its index; the
      bar cycles through two; every other kind through all of its states. */
  function NextRotation(k: Kind, r: nat): nat
  {
    if k == O then r
    else if k == I then (r + 1) % 2
    else (r + 1) % StateCount(k)
  }

  /** Every kind except the square advances to `(r + 1) mod stateCount`. */
  lemma NextRotationCycles(k: Kind, r: nat)
    requires r < StateCount(k)
    ensures NextRotation(k, r) == (r + 1) % StateCount(k)
    ensures NextRotation(k, r) < StateCount(k)
  {
  }

  /** The rotation index after `n` rotations starting from `r`. */
  function RotateTimes(k: Kind, r: nat, n: nat): nat
    decreases n
  {
    if n == 0 then r else RotateTimes(k, NextRotation(k, r), n - 1)
  }

  /** Rotating `a + b` times is rotating `a` times and then `b` times. */
  lemma {:induction false} RotateTimesAdd(k: Kind, r: nat, a: nat, b: nat)
    ensures RotateTimes(k, r, a + b) == RotateTimes(k, RotateTimes(k, r, a), b)
    decreases a
  {
    if a > 0 {
      RotateTimesAdd(k, NextRotation(k, r), a - 1, b);
    }
  }

  /** The rotation index stays in range however often the piece is rotated. */
  lemma {:induction false} RotateTimesInRange(k: Kind, r: nat, n: nat)
    requires r < StateCount(k)
    ensures RotateTimes(k, r, n) < StateCount(k)
    decreases n
  {
    if n > 0 {
      NextRotationCycles(k, r);
      RotateTimesInRange(k, NextRotation(k, r), n - 1);
    }
  }

  /** Rotating a piece as often as its kind has states brings it back. */
  lemma FullCycle(k: Kind, r: nat)
    requires r < StateCount(k)
    ensures RotateTimes(k, r, StateCount(k)) == r
  {
    match k
    case O =>
    case I =>
      assert RotateTimes(k, r, 2) == RotateTimes(k, NextRotation(k, r), 1);
    case S =>
      assert RotateTimes(k, r, 2) == RotateTimes(k, NextRotation(k, r), 1);
    case Z =>
      assert RotateTimes(k, r, 2) == RotateTimes(k, NextRotation(k, r), 1);
    case _ =>
      RotateTimesAdd(k, r, 2, 2);
      assert RotateTimes(k, r, 2) == RotateTimes(k, NextRotation(k, r), 1);
      var r2 := RotateTimes(k, r, 2);
      assert RotateTimes(k, r2, 2) == RotateTimes(k, NextRotation(k, r2), 1);
  }

  /** Four rotations of T, S, Z, J or L (and two of I, S or Z, any number of O)
      bring a piece back to where it started. */
  lemma CycleClosure(k: Kind, r: nat)
    requires r < StateCount(k)
    ensures k != O ==> RotateTimes(k, r, 4) == r
    ensures k == I || k == S || k == Z ==> RotateTimes(k, r, 2) == r
    ensures k == O ==> forall n: nat :: RotateTimes(k, r, n) == r
  {
    FullCycle(k, r);
    if k == I || k == S || k == Z {
      RotateTimesAdd(k, r, 2, 2);
    }
    if k == O {
      forall n: nat ensures RotateTimes(k, r, n) == r {
        OStaysPut(r, n);
      }
    }
  }

  lemma {:induction false} OStaysPut(r: nat, n: nat)
    ensures RotateTimes(O, r, n) == r
    decreases n
  {
    if n > 0 {
      OStaysPut(r, n - 1);
    }
  }

  /** A piece as a value: its kind, rotation index, shape and colour. */
  datatype PieceView = PieceView(kind: Kind, rotation: nat, shape: Shape, color: Color)

  /** The view is a state of its kind's table, in its kind's colour. */
  predicate InTable(p: PieceView)
  {
    p.rotation < StateCount(p.kind) && p.shape == States(p.kind)[p.rotation] && p.color == ColorOf(p.kind)
  }

  /** A new piece of kind `k`: its first state, in its kind's colour. */
  function Entered(k: Kind): (p: PieceView)
    ensures InTable(p) && IsShape(p.shape)
  {
    StatesAreShapes(k, 0);
    PieceView(k, 0, States(k)[0], ColorOf(k))
  }

  class Piece {
    const kind: Kind
    const color: Color
    var rotation: nat
    var shape: Shape

    /** The rotation index is in range and the shape is that state of the table. */
    ghost predicate Valid()
      reads this
    {
      rotation < StateCount(kind) && shape == States(kind)[rotation] && color == ColorOf(kind)
    }

    function View(): PieceView
      reads this`rotation, this`shape
    {
      PieceView(kind, rotation, shape, color)
    }

    constructor (k: Kind)
      ensures Valid()
      ensures kind == k && rotation == 0 && shape == States(k)[0] && color == ColorOf(k)
    {
      kind := k;
      rotation := 0;
      shape := States(k)[0];
      color := ColorOf(k);
    }

    /** Advances to the next rotation state. It always reports success:
        rejecting a rotation is the collision resolver's business. */
    method Rotate() returns (ok: bool)
      requires Valid()
      modifies this`rotation, this`shape
      ensures Valid()
      ensures ok
      ensures rotation == NextRotation(kind, old(rotation))
      ensures kind == O ==> rotation == old(rotation) && shape == old(shape)
    {
      if kind == O {
        return true;
      }
      if kind == I {
        rotation := (rotation + 1) % 2;
        shape := States(I)[rotation];
      } else {
        rotation := (rotation + 1) % StateCount(kind);
        shape := States(kind)[rotation];
      }
      return true;
    }

    function GetShape(): (s: Shape)
      reads this
      requires Valid()
      ensures IsShape(s)
    {
      StatesAreShapes(kind, rotation);
      shape
    }

    /** Columns of the first row: between 1 and 4 for every state. */
    function Width(): (w: nat)
      reads this
      requires Valid()
      ensures 1 <= w <= 4
    {
      StatesAreShapes(kind, rotation);
      |shape[0]|
    }

    /** Number of rows: between 1 and 4 for every state. */
    function Height(): (h: nat)
      reads this
      requires Valid()
      ensures 1 <= h <= 4
    {
      StatesAreShapes(kind, rotation);
      |shape|
    }

    function Dimensions(): (d: (nat, nat))
      reads this
      requires Valid()
      ensures d == (|shape[0]|, |shape|) && 1 <= d.0 <= 4 && 1 <= d.1 <= 4
    {
      (Width(), Height())
    }
  }

  /** A freshly spawned bar is 4 wide and 1 high, the square 2 x 2, the T 3 x 2. */
  lemma SpawnDimensions(p: Piece)
    requires p.Valid() && p.rotation == 0
    ensures p.kind == I ==> p.Dimensions() == (4, 1)
    ensures p.kind == O ==> p.Dimensions() == (2, 2)
    ensures p.kind == T ==> p.Dimensions() == (3, 2)
  {
  }
}
