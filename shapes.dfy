/**
 * The static piece catalogue: the seven piece kinds, the ordered list of
 * rotation states of each kind (0/1 matrices, here booleans) and the colour
 * of each kind.
 */
module Shapes {

  datatype Kind = I | O | T | S | Z | J | L

  /** An RGB colour triple, as the game stores it in occupied grid cells. */
  datatype Color = Color(r: int, g: int, b: int)

  /** A shape matrix: rows of cells, `true` where the piece has a block. */
  type Shape = seq<seq<bool>>

  /** Every kind in the order of the catalogue's keys. */
  const ALL_KINDS: seq<Kind> := [I, O, T, S, Z, J, L]

  /** A matrix with at least one row, every row as long as the first and non-empty. */
  predicate IsShape(s: Shape)
  {
    |s| > 0 && |s[0]| > 0 && forall r :: 0 <= r < |s| ==> |s[r]| == |s[0]|
  }

  function ColorOf(k: Kind): Color
  {
    match k
    case I => Color(0, 255, 255)
    case O => Color(255, 255, 0)
    case T => Color(255, 0, 255)
    case S => Color(0, 255, 0)
    case Z => Color(255, 0, 0)
    case J => Color(0, 0, 255)
    case L => Color(255, 165, 0)
  }

  // 0/1 rows written with a short notation: X is a block, _ is empty.
  const X := true
  const U := false

  /** The rotation states of each kind, state 0 first. */
  function States(k: Kind): seq<Shape>
  {
    match k
    case I => [ [[X, X, X, X]],
                [[X], [X], [X], [X]] ]
    case O => [ [[X, X], [X, X]] ]
    case T => [ [[U, X, U], [X, X, X]],
                [[X, U], [X, X], [X, U]],
                [[X, X, X], [U, X, U]],
                [[U, X], [X, X], [U, X]] ]
    case S => [ [[U, X, X], [X, X, U]],
                [[X, U], [X, X], [U, X]] ]
    case Z => [ [[X, X, U], [U, X, X]],
                [[U, X], [X, X], [X, U]] ]
    case J => [ [[X, U, U], [X, X, X]],
                [[X, X], [X, U], [X, U]],
                [[X, X, X], [U, U, X]],
                [[U, X], [U, X], [X, X]] ]
    case L => [ [[U, U, X], [X, X, X]],
                [[X, U], [X, U], [X, X]],
                [[X, X, X], [X, U, U]],
                [[X, X], [U, X], [U, X]] ]
  }

  /** Number of rotation states of a kind: I, S and Z have 2, O has 1, T, J and L have 4. */
  function StateCount(k: Kind): (n: nat)
    ensures n == |States(k)|
    ensures n == (match k case O => 1 case I => 2 case S => 2 case Z => 2 case _ => 4)
  {
    |States(k)|
  }

  /** Every state of every kind is a non-empty rectangular matrix of at most 4 x 4 cells. */
  lemma StatesAreShapes(k: Kind, r: nat)
    requires r < StateCount(k)
    ensures IsShape(States(k)[r])
    ensures 1 <= |States(k)[r]| <= 4 && 1 <= |States(k)[r][0]| <= 4
  {
    match k
    case I =>
    case O =>
    case T =>
    case S =>
    case Z =>
    case J =>
    case L =>
  }

  /** Consecutive states of a kind with more than one state are different shapes. */
  lemma StatesDiffer(k: Kind, r: nat)
    requires r < StateCount(k) && StateCount(k) > 1
    ensures States(k)[r] != States(k)[(r + 1) % StateCount(k)]
  {
    var s, t := States(k)[r], States(k)[(r + 1) % StateCount(k)];
    if |s| == |t| {
      // every pair of consecutive states differs in its first row
      assert s[0] != t[0] by {
        match k
        case I =>
        case T =>
        case S =>
        case Z =>
        case J =>
        case L =>
      }
    }
  }

  /** Every state has a block in its first row, so a piece entering at row 0
      always occupies a cell of that row. */
  lemma StatesTopRowOccupied(k: Kind, r: nat)
    requires r < StateCount(k)
    ensures exists c :: 0 <= c < |States(k)[r][0]| && States(k)[r][0][c]
  {
    StatesAreShapes(k, r);
    var row := States(k)[r][0];
    if row[0] {
    } else if row[1] {
    } else {
      assert row[2];
    }
  }

  /** The catalogue lists every kind, so drawing from all of it can yield any kind. */
  lemma EveryKindListed(k: Kind)
    ensures k in ALL_KINDS
  {
    match k
    case I => assert ALL_KINDS[0] == k;
    case O => assert ALL_KINDS[1] == k;
    case T => assert ALL_KINDS[2] == k;
    case S => assert ALL_KINDS[3] == k;
    case Z => assert ALL_KINDS[4] == k;
    case J => assert ALL_KINDS[5] == k;
    case L => assert ALL_KINDS[6] == k;
  }
}
