/** The 8x8 board of the grid page (src/components/grid/GridScene.tsx):
    a set of occupied squares, keyed by the string `x,z`, that a click
    toggles and a drag moves, plus the drag state the press, hover and release handlers keep. */
module GridBoard {
  import opened Wrappers
  import opened Text

  const GRID_SIZE: nat := 8

  /** A board square by column and row. */
  datatype GridPosition = GridPosition(x: nat, z: nat)

  /** The key `${x},${z}` of a square. */
  function SquareKey(x: nat, z: nat): string {
    NatToDecimal(x) + "," + NatToDecimal(z)
  }

  /** Two squares have the same key only if they are the same square: the
      comma cannot occur among the digits, so it splits the key uniquely. */
  lemma SquareKeyInjective(a: nat, b: nat, c: nat, d: nat)
    requires SquareKey(a, b) == SquareKey(c, d)
    ensures a == c && b == d
  {
    var s := SquareKey(a, b);
    var da, db, dc, dd := NatToDecimal(a), NatToDecimal(b), NatToDecimal(c), NatToDecimal(d);
    assert s == da + "," + db && s == dc + "," + dd;
    assert forall i :: 0 <= i < |da| ==> s[i] == da[i] && s[i] != ',';
    assert forall i :: 0 <= i < |dc| ==> s[i] == dc[i] && s[i] != ',';
    assert s[|da|] == ',' && s[|dc|] == ',';
    assert |da| == |dc|;
    assert da == s[..|da|] == dc;
    assert db == s[|da| + 1..] == dd;
    NatToDecimalInjective(a, c);
    NatToDecimalInjective(b, d);
  }

  /** JavaScript truthiness of a `string | null` state value. */
  predicate Truthy(o: Option<string>) {
    o.Some? && o.value != ""
  }

  /** Every key is non-empty, so a recorded key is always truthy. */
  lemma SquareKeyTruthy(x: nat, z: nat)
    ensures Truthy(Some(SquareKey(x, z)))
  {
    assert SquareKey(x, z)[|NatToDecimal(x)|] == ',';
  }

  /** `togglePiece`'s update of the set: exactly the one key changes
      membership. */
  function Toggled(pieces: set<string>, key: string): (r: set<string>)
    ensures key in r <==> key !in pieces
    ensures forall k :: k != key ==> (k in r <==> k in pieces)
  {
    if key in pieces then pieces - {key} else pieces + {key}
  }

  /** Toggling the same square twice restores the board. */
  lemma ToggleTwice(pieces: set<string>, key: string)
    ensures Toggled(Toggled(pieces, key), key) == pieces
  {
  }

  /** The piece count goes up by one on an empty square and down by one on
      an occupied one. */
  lemma ToggleCount(pieces: set<string>, key: string)
    ensures key in pieces ==> |Toggled(pieces, key)| == |pieces| - 1
    ensures key !in pieces ==> |Toggled(pieces, key)| == |pieces| + 1
  {
  }

  /** A drop moves the piece only onto a different, empty square. */
  predicate DropMoves(pieces: set<string>, from: string, target: string) {
    from != target && target !in pieces
  }

  /** The piece update of `handlePointerUp`: delete the source, add the
      target, when the move is allowed; otherwise the board is unchanged. */
  function Drop(pieces: set<string>, from: string, target: string): (r: set<string>)
    ensures DropMoves(pieces, from, target) ==>
      target in r && from !in r &&
      forall k :: k != from && k != target ==> (k in r <==> k in pieces)
    ensures !DropMoves(pieces, from, target) ==> r == pieces
  {
    if DropMoves(pieces, from, target) then (pieces - {from}) + {target} else pieces
  }

  /** Moving a piece that is on the board keeps the number of pieces; a
      stale source (its piece toggled away mid-drag) adds one. */
  lemma DropCount(pieces: set<string>, from: string, target: string)
    ensures from in pieces ==> |Drop(pieces, from, target)| == |pieces|
    ensures from !in pieces && DropMoves(pieces, from, target) ==>
      |Drop(pieces, from, target)| == |pieces| + 1
  {
    if DropMoves(pieces, from, target) && from in pieces {
      assert |pieces - {from}| == |pieces| - 1;
    }
  }

  /** Dropping a piece back where it came from changes nothing. */
  lemma DropOnSourceIsNoOp(pieces: set<string>, from: string)
    ensures Drop(pieces, from, from) == pieces
  {
  }

  /** Moving a piece and moving it back restores the board. */
  lemma DropAndBack(pieces: set<string>, from: string, target: string)
    requires from in pieces && DropMoves(pieces, from, target)
    ensures DropMoves(Drop(pieces, from, target), target, from)
    ensures Drop(Drop(pieces, from, target), target, from) == pieces
  {
  }

  /** The keys of all squares of the board. */
  function BoardKeys(): (keys: set<string>)
    ensures forall x: nat, z: nat :: x < GRID_SIZE && z < GRID_SIZE ==> SquareKey(x, z) in keys
  {
    set x: nat, z: nat | x < GRID_SIZE && z < GRID_SIZE :: SquareKey(x, z)
  }

  /** Clicking and dragging among the board's squares never puts a piece
      off the board. */
  lemma ToggleStaysOnBoard(pieces: set<string>, x: nat, z: nat)
    requires pieces <= BoardKeys()
    requires x < GRID_SIZE && z < GRID_SIZE
    ensures Toggled(pieces, SquareKey(x, z)) <= BoardKeys()
  {
  }

  lemma DropStaysOnBoard(pieces: set<string>, from: string, x: nat, z: nat)
    requires pieces <= BoardKeys()
    requires x < GRID_SIZE && z < GRID_SIZE
    ensures Drop(pieces, from, SquareKey(x, z)) <= BoardKeys()
  {
  }

  /** The highlight of one square while dragging (lines 87-89): it is the
      hovered square, not the source, and the drag is under way. */
  predicate IsHovering(draggedFrom: Option<string>, hoverTarget: Option<string>, key: string) {
    draggedFrom.Some? && draggedFrom != Some(key) && hoverTarget == Some(key)
  }

  /** A square shows as a valid drop target exactly when releasing the drag
      over it would move the piece there, and as an invalid one exactly when
      it is occupied. */
  lemma ValidDropHighlight(pieces: set<string>, draggedFrom: Option<string>,
                           hoverTarget: Option<string>, key: string)
    requires IsHovering(draggedFrom, hoverTarget, key)
    ensures (key !in pieces) <==> DropMoves(pieces, draggedFrom.value, key)
    ensures key in pieces ==> Drop(pieces, draggedFrom.value, key) == pieces
  {
  }

  /** The page's state: the occupied squares, the square a drag started
      from, the square the drag hovers, and whether the camera controls
      respond (they are switched off while dragging). */
  class Board {
    var pieces: set<string>
    var draggedFrom: Option<string>
    var hoverTarget: Option<string>
    var controlsEnabled: bool

    /** A drag is only ever started from an occupied square; a click during
        the drag may remove that piece again, so this is not an invariant of
        every handler. */
    predicate DraggingPiece()
      reads this
    {
      draggedFrom.Some? ==> draggedFrom.value in pieces
    }

    constructor()
      ensures pieces == {} && draggedFrom == None && hoverTarget == None
      ensures controlsEnabled
    {
      pieces := {};
      draggedFrom := None;
      hoverTarget := None;
      controlsEnabled := true;
    }

    /** `togglePiece`. */
    method TogglePiece(x: nat, z: nat)
      modifies this
      ensures pieces == Toggled(old(pieces), SquareKey(x, z))
      ensures draggedFrom == old(draggedFrom) && hoverTarget == old(hoverTarget)
      ensures controlsEnabled == old(controlsEnabled)
    {
      var key := SquareKey(x, z);
      if key in pieces {
        pieces := pieces - {key};
      } else {
        pieces := pieces + {key};
      }
    }

    /** `handlePointerDown`: a drag starts only on an occupied square, and
        then the camera controls are switched off. */
    method PointerDown(x: nat, z: nat)
      modifies this
      ensures SquareKey(x, z) in old(pieces) ==>
        draggedFrom == Some(SquareKey(x, z)) && !controlsEnabled
      ensures SquareKey(x, z) !in old(pieces) ==>
        draggedFrom == old(draggedFrom) && controlsEnabled == old(controlsEnabled)
      ensures pieces == old(pieces) && hoverTarget == old(hoverTarget)
      ensures old(DraggingPiece()) ==> DraggingPiece()
    {
      var key := SquareKey(x, z);
      if key in pieces {
        draggedFrom := Some(key);
        controlsEnabled := false;
      }
    }

    /** `handlePointerEnter`: the hovered square is recorded only during a
        drag. */
    method PointerEnter(x: nat, z: nat)
      modifies this
      ensures Truthy(old(draggedFrom)) ==> hoverTarget == Some(SquareKey(x, z))
      ensures !Truthy(old(draggedFrom)) ==> hoverTarget == old(hoverTarget)
      ensures pieces == old(pieces) && draggedFrom == old(draggedFrom)
      ensures controlsEnabled == old(controlsEnabled)
    {
      if Truthy(draggedFrom) {
        hoverTarget := Some(SquareKey(x, z));
      }
    }

    /** `handlePointerUp`: finishes any drag by dropping onto the square,
        and always ends the drag and switches the camera controls back on. */
    method PointerUp(x: nat, z: nat)
      modifies this
      ensures Truthy(old(draggedFrom)) ==>
        pieces == Drop(old(pieces), old(draggedFrom).value, SquareKey(x, z))
      ensures !Truthy(old(draggedFrom)) ==> pieces == old(pieces)
      ensures draggedFrom == None && hoverTarget == None && controlsEnabled
      ensures DraggingPiece()
    {
      if Truthy(draggedFrom) {
        var targetKey := SquareKey(x, z);
        if draggedFrom.value != targetKey && targetKey !in pieces {
          pieces := (pieces - {draggedFrom.value}) + {targetKey};
        }
      }
      draggedFrom := None;
      hoverTarget := None;
      controlsEnabled := true;
    }
  }

  /** Position `i` of the square list built by the nested loops. */
  function SquareAt(i: nat): GridPosition {
    GridPosition(i / GRID_SIZE, i % GRID_SIZE)
  }

  /** The list of squares, in the nested-loop order (x outer, z inner). */
  method GridSquares() returns (squares: seq<GridPosition>)
    ensures |squares| == GRID_SIZE * GRID_SIZE
    ensures forall i :: 0 <= i < |squares| ==> squares[i] == SquareAt(i)
  {
    squares := [];
    var x := 0;
    while x < GRID_SIZE
      invariant 0 <= x <= GRID_SIZE
      invariant |squares| == GRID_SIZE * x
      invariant forall i :: 0 <= i < |squares| ==> squares[i] == SquareAt(i)
    {
      var z := 0;
      while z < GRID_SIZE
        invariant 0 <= z <= GRID_SIZE
        invariant |squares| == GRID_SIZE * x + z
        invariant forall i :: 0 <= i < |squares| ==> squares[i] == SquareAt(i)
      {
        assert SquareAt(GRID_SIZE * x + z) == GridPosition(x, z);
        squares := squares + [GridPosition(x, z)];
        z := z + 1;
      }
      x := x + 1;
    }
  }

  /** The 64 listed squares are distinct, lie on the board, and their keys
      are distinct (so React's `key` is unique). */
  lemma SquaresDistinct(i: nat, j: nat)
    requires i < GRID_SIZE * GRID_SIZE && j < GRID_SIZE * GRID_SIZE && i != j
    ensures SquareAt(i).x < GRID_SIZE && SquareAt(i).z < GRID_SIZE
    ensures SquareKey(SquareAt(i).x, SquareAt(i).z) != SquareKey(SquareAt(j).x, SquareAt(j).z)
  {
    var a, b := SquareAt(i), SquareAt(j);
    assert i == GRID_SIZE * a.x + a.z && j == GRID_SIZE * b.x + b.z;
    if SquareKey(a.x, a.z) == SquareKey(b.x, b.z) {
      SquareKeyInjective(a.x, a.z, b.x, b.z);
      assert false;
    }
  }

  /** Every square of the board is listed. */
  lemma EverySquareListed(x: nat, z: nat)
    requires x < GRID_SIZE && z < GRID_SIZE
    ensures GRID_SIZE * x + z < GRID_SIZE * GRID_SIZE
    ensures SquareAt(GRID_SIZE * x + z) == GridPosition(x, z)
  {
  }
}
