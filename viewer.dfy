/**
 * The mesh viewer (yapfc/viewer.py): highlighting the picked cell, and the
 * renderer's actors with the edge and representation settings the viewer
 * applies to them.
 */
module Viewer {

  import opened Seqs

  // ---------------------------------------------------------------------------
  // Cell highlighting
  // ---------------------------------------------------------------------------

  /** One component of a `vtkUnsignedCharArray` tuple. */
  newtype byte = x: int | 0 <= x < 256

  datatype Rgb = Rgb(r: byte, g: byte, b: byte)

  const Red := Rgb(255, 0, 0)
  const White := Rgb(255, 255, 255)

  /** The unstructured grid of the loaded mesh: its cell count and its cell scalars. */
  class Grid {
    const numberOfCells: nat
    /** The "CellColors" array set as the grid's cell scalars. */
    var cellColors: seq<Rgb>

    constructor (numberOfCells: nat)
      ensures this.numberOfCells == numberOfCells && cellColors == []
    {
      this.numberOfCells := numberOfCells;
      cellColors := [];
    }
  }

  /** The colours `highlightCell` gives the cells: red for the picked cell, white for every other. */
  function HighlightColors(numberOfCells: nat, cellID: int): seq<Rgb>
  {
    seq(numberOfCells, i => if i == cellID then Red else White)
  }

  /** How many cells carry colour `c`. */
  function Count(colors: seq<Rgb>, c: Rgb): nat
  {
    if colors == [] then 0
    else Count(colors[..|colors| - 1], c) + (if colors[|colors| - 1] == c then 1 else 0)
  }

  /**
   * Exactly one cell is red when the picked id is a cell of the grid and none
   * otherwise (a miss reports -1); every other cell is white.
   */
  lemma {:induction false} HighlightCounts(numberOfCells: nat, cellID: int)
    ensures Count(HighlightColors(numberOfCells, cellID), Red) == if 0 <= cellID < numberOfCells then 1 else 0
    ensures Count(HighlightColors(numberOfCells, cellID), White) ==
      numberOfCells - if 0 <= cellID < numberOfCells then 1 else 0
  {
    if numberOfCells > 0 {
      var colors := HighlightColors(numberOfCells, cellID);
      assert colors[..numberOfCells - 1] == HighlightColors(numberOfCells - 1, cellID);
      HighlightCounts(numberOfCells - 1, cellID);
    }
  }

  /** `highlightCell`: builds one colour per cell and sets the array as the grid's cell scalars. */
  method HighlightCell(mesh: Grid, cellID: int)
    modifies mesh
    ensures |mesh.cellColors| == mesh.numberOfCells
    ensures forall i :: 0 <= i < mesh.numberOfCells ==> (mesh.cellColors[i] == Red <==> i == cellID)
    ensures forall i :: 0 <= i < mesh.numberOfCells ==> mesh.cellColors[i] in {Red, White}
    ensures mesh.cellColors == HighlightColors(mesh.numberOfCells, cellID)
  {
    var colors: seq<Rgb> := [];
    var i := 0;
    while i < mesh.numberOfCells
      invariant 0 <= i <= mesh.numberOfCells
      invariant colors == HighlightColors(i, cellID)
    {
      if i == cellID {
        colors := colors + [Red];
      } else {
        colors := colors + [White];
      }
      i := i + 1;
    }
    mesh.cellColors := colors;
  }

  /**
   * `left_button_press_event`: the picked cell id (-1 when the click hits no
   * cell) is highlighted, so a miss leaves every cell white.
   */
  method LeftButtonPress(mesh: Grid, pickedCellId: int)
    modifies mesh
    ensures mesh.cellColors == HighlightColors(mesh.numberOfCells, pickedCellId)
    ensures pickedCellId == -1 ==> forall i :: 0 <= i < mesh.numberOfCells ==> mesh.cellColors[i] == White
  {
    HighlightCell(mesh, pickedCellId);
  }

  // ---------------------------------------------------------------------------
  // Actors and their representation
  // ---------------------------------------------------------------------------

  datatype Representation = Points | Wireframe | Surface

  /** A `vtkActor` and the properties the viewer sets on it. */
  class Actor {
    var representation: Representation
    var edgeVisibility: bool
    var pointSize: real

    constructor (representation: Representation, edgeVisibility: bool, pointSize: real)
      ensures this.representation == representation
      ensures this.edgeVisibility == edgeVisibility
      ensures this.pointSize == pointSize
    {
      this.representation := representation;
      this.edgeVisibility := edgeVisibility;
      this.pointSize := pointSize;
    }
  }

  /** The properties of an actor, as a value. */
  datatype Look = Look(representation: Representation, edgeVisibility: bool, pointSize: real)

  function LookOf(a: Actor): Look
    reads a
  {
    Look(a.representation, a.edgeVisibility, a.pointSize)
  }

  /**
   * What `SetRepresentation(aTyp)` does to one actor: 1 shows points of size
   * 4, 2 a wireframe, 3 the surface without edges, 4 the surface with edges;
   * any other value changes nothing.
   */
  function Represented(look: Look, aTyp: int): Look
  {
    if aTyp == 1 then look.(representation := Points, pointSize := 4.0)
    else if aTyp == 2 then look.(representation := Wireframe)
    else if aTyp == 3 then look.(representation := Surface, edgeVisibility := false)
    else if aTyp == 4 then look.(representation := Surface, edgeVisibility := true)
    else look
  }

  /** Setting the same representation twice is the same as setting it once. */
  lemma RepresentedIdempotent(look: Look, aTyp: int)
    ensures Represented(Represented(look, aTyp), aTyp) == Represented(look, aTyp)
  {
  }

  /** Setting a representation forgets the previous one, except for what the new one leaves alone. */
  lemma RepresentedLastWins(look: Look, first: int, second: int)
    requires 1 <= second <= 4
    ensures Represented(Represented(look, first), second).representation == Represented(look, second).representation
    ensures second in {3, 4} ==>
      Represented(Represented(look, first), second).edgeVisibility == Represented(look, second).edgeVisibility
  {
  }

  /** What `SetRepresentation` leaves in `ShowEdges`: set by the loop, so untouched without actors. */
  function ShowEdgesAfter(showEdges: bool, actorCount: nat, aTyp: int): bool
  {
    if actorCount > 0 && 1 <= aTyp <= 4 then aTyp == 4 else showEdges
  }

  /** `s` without `x`. */
  function Without<T(==)>(s: seq<T>, x: T): (r: seq<T>)
    ensures forall i :: 0 <= i < |r| ==> r[i] in s && r[i] != x
    ensures forall i :: 0 <= i < |s| && s[i] != x ==> s[i] in r
    ensures Distinct(s) ==> Distinct(r)
    ensures x in s && Distinct(s) ==> |r| == |s| - 1
    ensures x !in s ==> r == s
  {
    if s == [] then []
    else if s[0] == x then Without(s[1..], x)
    else [s[0]] + Without(s[1..], x)
  }

  /** From a list that holds `x` only at `k`, `Without` takes out that element and keeps the others in order. */
  lemma {:induction false} WithoutAt<T>(s: seq<T>, x: T, k: nat)
    requires k < |s| && s[k] == x && x !in s[..k] && x !in s[k + 1..]
    ensures Without(s, x) == s[..k] + s[k + 1..]
  {
    var t := s[1..];
    if k == 0 {
      assert t == s[k + 1..];
      assert s[..k] + t == t;
    } else {
      assert s[0] in s[..k];
      assert t[..k - 1] == s[1..k] && s[..k] == [s[0]] + t[..k - 1];
      assert x !in t[..k - 1];
      assert t[k..] == s[k + 1..];
      WithoutAt(t, x, k - 1);
    }
  }

  /**
   * From a list that holds `x` once, `Without` takes out exactly that
   * occurrence and keeps the others in their order.
   */
  lemma WithoutDistinct<T>(s: seq<T>, x: T)
    requires x in s && Distinct(s)
    ensures Without(s, x) == s[..IndexOf(s, x)] + s[IndexOf(s, x) + 1..]
  {
    var k := IndexOf(s, x);
    var rest := s[k + 1..];
    forall j | 0 <= j < |rest|
      ensures rest[j] != x
    {
      assert rest[j] == s[k + 1 + j];
    }
    WithoutAt(s, x, k);
  }

  /** The viewer widget: its renderer's actors and the `ShowEdges` flag. */
  class VtkViewer {
    /** The actors of the renderer, in the order they were added. */
    var actors: seq<Actor>
    var showEdges: bool

    /**
     * A renderer holds an actor at most once, and while `ShowEdges` is set
     * every actor shows its edges.
     */
    ghost predicate Valid()
      reads this, actors
    {
      && Distinct(actors)
      && (showEdges ==> forall a :: a in actors ==> a.edgeVisibility)
    }

    constructor ()
      ensures Valid() && actors == [] && showEdges
    {
      actors := [];
      showEdges := true;
    }

    /**
     * `AddActor`: the actor's edges are switched on when `ShowEdges` is set;
     * the renderer then holds it (a renderer ignores an actor it already holds).
     */
    method AddActor(a: Actor)
      requires Valid()
      modifies this, a
      ensures Valid()
      ensures actors == if a in old(actors) then old(actors) else old(actors) + [a]
      ensures showEdges == old(showEdges)
      ensures a.edgeVisibility == (old(showEdges) || old(a.edgeVisibility))
      ensures a.representation == old(a.representation) && a.pointSize == old(a.pointSize)
    {
      if showEdges {
        a.edgeVisibility := true;
      }
      if a !in actors {
        actors := actors + [a];
      }
    }

    /** `RemoveActor`: the renderer no longer holds the actor. */
    method RemoveActor(a: Actor)
      requires Valid()
      modifies this
      ensures Valid()
      ensures actors == Without(old(actors), a)
      ensures a in old(actors) ==>
        actors == old(actors)[..IndexOf(old(actors), a)] + old(actors)[IndexOf(old(actors), a) + 1..]
      ensures showEdges == old(showEdges)
    {
      if a in actors {
        WithoutDistinct(actors, a);
      }
      actors := Without(actors, a);
    }

    /** `GetAllActors`: a new list of the renderer's actors, in order. */
    method GetAllActors() returns (result: seq<Actor>)
      ensures result == actors
    {
      result := [];
      var i := 0;
      while i < |actors|
        invariant 0 <= i <= |actors|
        invariant result == actors[..i]
      {
        result := result + [actors[i]];
        i := i + 1;
      }
    }

    /**
     * `SetRepresentation`: every actor gets the representation `aTyp` names,
     * and `ShowEdges` records whether edges are shown (only when there is an
     * actor to set it).
     */
    method SetRepresentation(aTyp: int)
      requires Valid()
      modifies this, actors
      ensures Valid()
      ensures actors == old(actors)
      ensures forall a :: a in actors ==> LookOf(a) == Represented(old(LookOf(a)), aTyp)
      ensures 1 <= aTyp <= 4 ==> forall a, b :: a in actors && b in actors ==> a.representation == b.representation
      ensures showEdges == ShowEdgesAfter(old(showEdges), |actors|, aTyp)
    {
      var i := 0;
      while i < |actors|
        invariant 0 <= i <= |actors|
        invariant actors == old(actors)
        invariant forall j :: 0 <= j < i ==> LookOf(actors[j]) == Represented(old(LookOf(actors[j])), aTyp)
        invariant forall j :: i <= j < |actors| ==> LookOf(actors[j]) == old(LookOf(actors[j]))
        invariant showEdges == ShowEdgesAfter(old(showEdges), i, aTyp)
      {
        var actor := actors[i];
        if aTyp == 1 {
          actor.representation := Points;
          actor.pointSize := 4.0;
          showEdges := false;
        }
        if aTyp == 2 {
          actor.representation := Wireframe;
          showEdges := false;
        }
        if aTyp == 3 {
          actor.representation := Surface;
          actor.edgeVisibility := false;
          showEdges := false;
        }
        if aTyp == 4 {
          actor.representation := Surface;
          actor.edgeVisibility := true;
          showEdges := true;
        }
        i := i + 1;
      }
    }
  }
}
