/**
 * Collision checks and the wall kick (src/core/collision.py): a rotation
 * that does not fit where the piece is may still succeed at the first of a
 * fixed list of nearby offsets that fits; otherwise the rotation is undone.
 */
module Collision {
  import opened Wrappers
  import opened Shapes
  import opened Pieces
  import opened Boards

  type Offset = (int, int)

  /** Up, up-right, up-left, right, left, down-right, down-left, down. */
  const KICK_OFFSETS: seq<Offset> := [(0, -1), (1, -1), (-1, -1), (1, 0), (-1, 0), (1, 1), (-1, 1), (0, 1)]

  /** The index of the first offset, from `i` on, at which the shape fits. */
  function FirstFit(g: Grid, w: nat, h: nat, s: Shape, x: int, y: int, offs: seq<Offset>, i: nat): (k: Option<nat>)
    requires WellFormed(g, w, h) && IsShape(s) && i <= |offs|
    ensures k.Some? ==> i <= k.value < |offs|
    decreases |offs| - i
  {
    if i == |offs| then None
    else if Fits(g, w, h, s, x + offs[i].0, y + offs[i].1) then Some(i)
    else FirstFit(g, w, h, s, x, y, offs, i + 1)
  }

  /** The search finds an offset that fits with none fitting before it, and
      finds nothing exactly when no offset from `i` on fits. */
  lemma {:induction false} FirstFitMeaning(g: Grid, w: nat, h: nat, s: Shape, x: int, y: int, offs: seq<Offset>, i: nat)
    requires WellFormed(g, w, h) && IsShape(s) && i <= |offs|
    ensures var k := FirstFit(g, w, h, s, x, y, offs, i);
            k.Some? ==> Fits(g, w, h, s, x + offs[k.value].0, y + offs[k.value].1)
    ensures var k := FirstFit(g, w, h, s, x, y, offs, i);
            k.Some? ==> forall j :: i <= j < k.value ==> !Fits(g, w, h, s, x + offs[j].0, y + offs[j].1)
    ensures FirstFit(g, w, h, s, x, y, offs, i).None? <==>
              forall j :: i <= j < |offs| ==> !Fits(g, w, h, s, x + offs[j].0, y + offs[j].1)
    decreases |offs| - i
  {
    if i < |offs| && !Fits(g, w, h, s, x + offs[i].0, y + offs[i].1) {
      FirstFitMeaning(g, w, h, s, x, y, offs, i + 1);
    }
  }

  /** One step of the search: the offset at `i` is taken when it fits. */
  lemma FirstFitStep(g: Grid, w: nat, h: nat, s: Shape, x: int, y: int, offs: seq<Offset>, i: nat)
    requires WellFormed(g, w, h) && IsShape(s) && i < |offs|
    ensures FirstFit(g, w, h, s, x, y, offs, i) ==
              if Fits(g, w, h, s, x + offs[i].0, y + offs[i].1) then Some(i) else FirstFit(g, w, h, s, x, y, offs, i + 1)
  {
  }

  /** Where the wall kick moves the piece: the first fitting offset, or the
      starting position when none fits. */
  function KickTarget(g: Grid, w: nat, h: nat, s: Shape, x: int, y: int, offs: seq<Offset>): Offset
    requires WellFormed(g, w, h) && IsShape(s)
  {
    match FirstFit(g, w, h, s, x, y, offs, 0)
    case Some(k) => (x + offs[k].0, y + offs[k].1)
    case None => (x, y)
  }

  /** The kick lands on the first offset that fits, in list order; when none
      fits it gives back the start, which then need not fit itself. */
  lemma KickTargetMeaning(g: Grid, w: nat, h: nat, s: Shape, x: int, y: int, offs: seq<Offset>)
    requires WellFormed(g, w, h) && IsShape(s)
    ensures (exists j :: 0 <= j < |offs| && Fits(g, w, h, s, x + offs[j].0, y + offs[j].1)) ==>
              exists j :: 0 <= j < |offs| && KickTarget(g, w, h, s, x, y, offs) == (x + offs[j].0, y + offs[j].1) &&
                Fits(g, w, h, s, x + offs[j].0, y + offs[j].1) &&
                forall i :: 0 <= i < j ==> !Fits(g, w, h, s, x + offs[i].0, y + offs[i].1)
    ensures (forall j :: 0 <= j < |offs| ==> !Fits(g, w, h, s, x + offs[j].0, y + offs[j].1)) ==>
              KickTarget(g, w, h, s, x, y, offs) == (x, y)
  {
    FirstFitMeaning(g, w, h, s, x, y, offs, 0);
    var k := FirstFit(g, w, h, s, x, y, offs, 0);
    if k.Some? {
      var j := k.value;
      assert KickTarget(g, w, h, s, x, y, offs) == (x + offs[j].0, y + offs[j].1);
    }
  }

  /** The shape fits at the kick target exactly when some offset fits. */
  lemma KickTargetFits(g: Grid, w: nat, h: nat, s: Shape, x: int, y: int, offs: seq<Offset>)
    requires WellFormed(g, w, h) && IsShape(s)
    requires !Fits(g, w, h, s, x, y)
    ensures var (kx, ky) := KickTarget(g, w, h, s, x, y, offs);
            Fits(g, w, h, s, kx, ky) <==> exists j :: 0 <= j < |offs| && Fits(g, w, h, s, x + offs[j].0, y + offs[j].1)
  {
    FirstFitMeaning(g, w, h, s, x, y, offs, 0);
    var k := FirstFit(g, w, h, s, x, y, offs, 0);
    if k.Some? {
      var j := k.value;
      assert Fits(g, w, h, s, x + offs[j].0, y + offs[j].1);
    }
  }

  /** Whether the piece fits on the board at (x, y). */
  method IsValidPosition(piece: Piece, board: Board, x: int, y: int) returns (ok: bool)
    requires IsShape(piece.shape) && board.Valid()
    ensures ok == Fits(board.grid, board.width, board.height, piece.shape, x, y)
  {
    ok := board.IsValidPosition(piece, x, y);
  }

  /** Tries the offsets in order and returns the first position that fits,
      or (x, y) when none does. Neither the piece nor the board changes. */
  method TryWallKickWith(piece: Piece, board: Board, x: int, y: int, offs: seq<Offset>) returns (p: Offset)
    requires IsShape(piece.shape) && board.Valid()
    ensures p == KickTarget(board.grid, board.width, board.height, piece.shape, x, y, offs)
  {
    ghost var (g, w, h, s) := (board.grid, board.width, board.height, piece.shape);
    var i := 0;
    while i < |offs|
      invariant 0 <= i <= |offs|
      invariant WellFormed(g, w, h) && IsShape(s)
      invariant g == board.grid && w == board.width && h == board.height && s == piece.shape
      invariant FirstFit(g, w, h, s, x, y, offs, 0) == FirstFit(g, w, h, s, x, y, offs, i)
    {
      var nx, ny := x + offs[i].0, y + offs[i].1;
      var ok := board.IsValidPosition(piece, nx, ny);
      FirstFitStep(g, w, h, s, x, y, offs, i);
      if ok {
        return (nx, ny);
      }
      i := i + 1;
    }
    return (x, y);
  }

  /** The wall kick of the modular engine, over its eight offsets. */
  method TryWallKick(piece: Piece, board: Board, x: int, y: int) returns (p: Offset)
    requires IsShape(piece.shape) && board.Valid()
    ensures p == KickTarget(board.grid, board.width, board.height, piece.shape, x, y, KICK_OFFSETS)
  {
    p := TryWallKickWith(piece, board, x, y, KICK_OFFSETS);
  }

  /** The shape one rotation from state `r` of kind `k` produces. */
  function RotatedShape(k: Kind, r: nat): (s: Shape)
    requires r < StateCount(k)
    ensures IsShape(s)
  {
    NextRotationCycles(k, r);
    StatesAreShapes(k, NextRotation(k, r));
    States(k)[NextRotation(k, r)]
  }

  /** Where a rotation of shape `s` into shape `s2` at (x, y) ends up, if anywhere:
      in place when the rotated shape fits there, otherwise at the kick target
      when it fits there. */
  function RotationTarget(g: Grid, w: nat, h: nat, s2: Shape, x: int, y: int, offs: seq<Offset>): (t: Option<Offset>)
    requires WellFormed(g, w, h) && IsShape(s2)
    ensures t.Some? ==> Fits(g, w, h, s2, t.value.0, t.value.1)
    ensures Fits(g, w, h, s2, x, y) ==> t == Some((x, y))
  {
    if Fits(g, w, h, s2, x, y) then Some((x, y))
    else
      var (kx, ky) := KickTarget(g, w, h, s2, x, y, offs);
      if Fits(g, w, h, s2, kx, ky) then Some((kx, ky)) else None
  }

  /** A rotation is refused exactly when the rotated shape fits neither in
      place nor at any of the offsets. */
  lemma RotationRefusedIff(g: Grid, w: nat, h: nat, s2: Shape, x: int, y: int, offs: seq<Offset>)
    requires WellFormed(g, w, h) && IsShape(s2)
    ensures RotationTarget(g, w, h, s2, x, y, offs).None? <==>
              !Fits(g, w, h, s2, x, y) && forall j :: 0 <= j < |offs| ==> !Fits(g, w, h, s2, x + offs[j].0, y + offs[j].1)
  {
    if !Fits(g, w, h, s2, x, y) {
      KickTargetFits(g, w, h, s2, x, y, offs);
    }
  }

  /** Rotates the piece and keeps the rotation if the rotated shape fits in
      place or after a wall kick, reporting where; otherwise restores the
      rotation and shape it had and reports (x, y). */
  method CanRotate(piece: Piece, board: Board, x: int, y: int) returns (ok: bool, p: Offset)
    requires piece.Valid() && board.Valid()
    modifies piece`rotation, piece`shape
    ensures piece.Valid()
    ensures var t := RotationTarget(board.grid, board.width, board.height,
                                    RotatedShape(piece.kind, old(piece.rotation)), x, y, KICK_OFFSETS);
            ok == t.Some? && (ok ==> p == t.value)
    ensures ok ==> piece.rotation == NextRotation(piece.kind, old(piece.rotation))
    ensures !ok ==> p == (x, y) && piece.rotation == old(piece.rotation) && piece.shape == old(piece.shape)
  {
    var originalRotation, originalShape := piece.rotation, piece.shape;
    var _ := piece.Rotate();
    StatesAreShapes(piece.kind, piece.rotation);
    var fits := board.IsValidPosition(piece, x, y);
    if fits {
      return true, (x, y);
    }
    var kick := TryWallKick(piece, board, x, y);
    fits := board.IsValidPosition(piece, kick.0, kick.1);
    if fits {
      return true, kick;
    }
    piece.rotation, piece.shape := originalRotation, originalShape;
    return false, (x, y);
  }
}
