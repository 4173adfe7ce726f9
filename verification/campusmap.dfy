/**
 * The `map` command's layout (game.py:799-841): a breadth-first search from
 * the entrance over the north, south, east and west exits gives every
 * location it reaches a grid cell, one step per exit; a location keeps the
 * first cell it is given.  Locations of the world it does not reach are
 * listed apart.  Every printed cell is exactly 20 characters wide
 * (game.py:850-866, 877-883).
 *
 * The source also keeps a `processed_for_bfs` set next to `coords`; the two
 * always hold the same names (a name enters both in the same step), so the
 * model keeps only `coords`, and the branch that assigns a cell to a
 * processed name without one is never taken.
 */
module CampusMap {
  import opened Wrappers
  import opened Text
  import opened WorldMap

  type Cell = (int, int)

  /** `dir_delta`: north is up (y decreases), east is right (x increases). */
  function Delta(d: string): (c: Cell)
    requires d in Directions
    ensures (c.0 == 0) != (c.1 == 0) && -1 <= c.0 <= 1 && -1 <= c.1 <= 1
  {
    if d == "north" then (0, -1)
    else if d == "south" then (0, 1)
    else if d == "east" then (1, 0)
    else (-1, 0)
  }

  function Add(c: Cell, d: Cell): Cell {
    (c.0 + d.0, c.1 + d.1)
  }

  /** `x` got its cell one step from a location that has one, through a cardinal exit. */
  ghost predicate PlacedFrom(w: World, coords: map<string, Cell>, x: string) {
    exists p, d :: p in coords && p in w && d in w[p].exits && d in Directions && w[p].exits[d] == x &&
                   x in coords && coords[x] == Add(coords[p], Delta(d))
  }

  /**
   * The invariant of the layout search; `expanded` (ghost) holds the names
   * whose exits were already followed.
   */
  ghost predicate LayoutInvariant(w: World, coords: map<string, Cell>, queue: seq<string>, expanded: set<string>) {
    && Start in coords && coords[Start] == (0, 0)
    && coords.Keys <= Names(w)
    && expanded <= coords.Keys
    && (forall q :: q in queue ==> q in coords)
    && (forall x :: x in coords && x !in expanded ==> x in queue)
    && (forall x :: x in coords ==> Reaches(w, Start, x, true))
    && (forall x :: x in coords && x != Start ==> PlacedFrom(w, coords, x))
    && (forall x, t :: x in expanded && t in Targets(w, x, true) ==> t in coords)
  }

  /**
   * The layout search.  The result gives the entrance (0, 0), holds exactly
   * the names reachable from the entrance by cardinal exits, and places every
   * other name one step from a neighbour that leads to it.
   */
  method Layout(w: World) returns (coords: map<string, Cell>)
    requires Start in w
    ensures Start in coords && coords[Start] == (0, 0)
    ensures forall x :: x in coords <==> Reaches(w, Start, x, true)
    ensures forall x :: x in coords && x != Start ==> PlacedFrom(w, coords, x)
  {
    coords := map[Start := (0, 0)];
    var queue := [Start];
    ghost var expanded: set<string> := {};
    ReachesSelf(w, Start, true);
    while queue != []
      invariant LayoutInvariant(w, coords, queue, expanded)
      decreases |Names(w) - coords.Keys|, |queue|
    {
      var current := queue[0];
      ghost var full := queue;
      ghost var before := coords;
      queue := queue[1..];
      if current in w {
        coords, queue := PlaceNeighbours(w, current, coords, queue);
        if coords.Keys != before.Keys {
          FewerLeft(Names(w), before.Keys, coords.Keys);
        } else {
          assert |queue| < |full|;
        }
        LayoutStep(w, current, full, before, coords, queue, expanded);
      } else {
        LayoutSkip(w, current, full, coords, expanded);
      }
      expanded := expanded + {current};
    }
    ClosedHoldsReach(w, Start, coords.Keys, true);
  }

  /**
   * The inner loop: every cardinal exit of `current` leading to a name
   * without a cell gives that name the cell one step away and queues it.
   */
  method PlaceNeighbours(w: World, current: string, coords: map<string, Cell>, queue: seq<string>)
      returns (coords': map<string, Cell>, queue': seq<string>)
    requires current in w && current in coords
    requires coords.Keys <= Names(w)
    ensures coords.Keys <= coords'.Keys <= Names(w)
    ensures forall x :: x in coords ==> coords'[x] == coords[x]
    ensures coords'.Keys == coords.Keys ==> queue' == queue
    ensures forall q :: q in queue ==> q in queue'
    ensures forall q :: q in queue' ==> q in queue || q in coords'.Keys - coords.Keys
    ensures forall x :: x in coords'.Keys - coords.Keys ==> x in queue'
    ensures forall x :: x in coords'.Keys - coords.Keys ==>
              exists d :: d in w[current].exits && d in Directions && w[current].exits[d] == x &&
                          coords'[x] == Add(coords[current], Delta(d))
    ensures Targets(w, current, true) <= coords'.Keys
    ensures coords'.Keys - coords.Keys <= Targets(w, current, true)
  {
    var exits := w[current].exits;
    var here := coords[current];
    var dirs := exits.Keys;
    coords', queue' := coords, queue;
    while dirs != {}
      invariant dirs <= exits.Keys
      invariant coords.Keys <= coords'.Keys <= Names(w)
      invariant forall x :: x in coords ==> coords'[x] == coords[x]
      invariant coords'.Keys == coords.Keys ==> queue' == queue
      invariant forall q :: q in queue ==> q in queue'
      invariant forall q :: q in queue' ==> q in queue || q in coords'.Keys - coords.Keys
      invariant forall x :: x in coords'.Keys - coords.Keys ==> x in queue'
      invariant forall x :: x in coords'.Keys - coords.Keys ==>
                  exists d :: d in exits && d in Directions && exits[d] == x && coords'[x] == Add(here, Delta(d))
      invariant forall d :: d in exits && d !in dirs && d in Directions ==> exits[d] in coords'
      invariant coords'.Keys - coords.Keys <= Targets(w, current, true)
      decreases dirs
    {
      var d :| d in dirs;
      dirs := dirs - {d};
      if d in Directions {
        var next := exits[d];
        if next !in coords' {
          assert next in Targets(w, current, true);
          coords' := coords'[next := Add(here, Delta(d))];
          queue' := queue' + [next];
        }
      }
    }
    forall t | t in Targets(w, current, true) ensures t in coords' {
      var d :| d in exits && d in Directions && exits[d] == t;
    }
  }

  /** Giving more names a cell leaves fewer names without one. */
  lemma FewerLeft(names: set<string>, before: set<string>, after: set<string>)
    requires before < after <= names
    ensures |names - after| < |names - before|
  {
    assert after - before != {};
    var x :| x in after - before;
    var left := (names - before) - {x};
    assert names - after <= left;
    assert |left| == |names - before| - 1;
    SubsetNoLarger(names - after, left);
  }

  lemma {:induction false} SubsetNoLarger(a: set<string>, b: set<string>)
    requires a <= b
    ensures |a| <= |b|
    decreases |a|
  {
    if a != {} {
      var y :| y in a;
      SubsetNoLarger(a - {y}, b - {y});
    }
  }

  /** Following the exits of a location of the world keeps the invariant. */
  lemma LayoutStep(w: World, current: string, full: seq<string>, before: map<string, Cell>,
                   coords: map<string, Cell>, queue: seq<string>, expanded: set<string>)
    requires full != [] && full[0] == current && current in w
    requires LayoutInvariant(w, before, full, expanded)
    requires before.Keys <= coords.Keys <= Names(w)
    requires forall x :: x in before ==> coords[x] == before[x]
    requires forall q :: q in full[1..] ==> q in queue
    requires forall q :: q in queue ==> q in full[1..] || q in coords.Keys - before.Keys
    requires forall x :: x in coords.Keys - before.Keys ==> x in queue
    requires forall x :: x in coords.Keys - before.Keys ==>
               exists d :: d in w[current].exits && d in Directions && w[current].exits[d] == x &&
                           coords[x] == Add(before[current], Delta(d))
    requires Targets(w, current, true) <= coords.Keys
    requires coords.Keys - before.Keys <= Targets(w, current, true)
    ensures LayoutInvariant(w, coords, queue, expanded + {current})
  {
    assert forall q :: q in full ==> q == current || q in full[1..];
    StepReaches(w, current, before, coords);
    StepPlaced(w, current, before, coords);
  }

  /** The names given a cell from `current` are reached through it. */
  lemma StepReaches(w: World, current: string, before: map<string, Cell>, coords: map<string, Cell>)
    requires current in before
    requires forall x :: x in before ==> Reaches(w, Start, x, true)
    requires coords.Keys - before.Keys <= Targets(w, current, true)
    ensures forall x :: x in coords ==> Reaches(w, Start, x, true)
  {
    forall x | x in coords ensures Reaches(w, Start, x, true) {
      if x !in before {
        ReachesStep(w, Start, current, x, true);
      }
    }
  }

  /** The names given a cell from `current` sit one step from it. */
  lemma StepPlaced(w: World, current: string, before: map<string, Cell>, coords: map<string, Cell>)
    requires current in before && current in w
    requires before.Keys <= coords.Keys
    requires forall x :: x in before ==> coords[x] == before[x]
    requires forall x :: x in before && x != Start ==> PlacedFrom(w, before, x)
    requires forall x :: x in coords.Keys - before.Keys ==>
               exists d :: d in w[current].exits && d in Directions && w[current].exits[d] == x &&
                           coords[x] == Add(before[current], Delta(d))
    ensures forall x :: x in coords && x != Start ==> PlacedFrom(w, coords, x)
  {
    forall x | x in coords && x != Start ensures PlacedFrom(w, coords, x) {
      if x in before {
        var p, d :| p in before && p in w && d in w[p].exits && d in Directions && w[p].exits[d] == x &&
                    x in before && before[x] == Add(before[p], Delta(d));
        assert p in coords && coords[p] == before[p];
      } else {
        var d :| d in w[current].exits && d in Directions && w[current].exits[d] == x &&
                 coords[x] == Add(before[current], Delta(d));
        assert current in coords && coords[current] == before[current];
      }
    }
  }

  /** A queued name that is not a location has no exits to follow. */
  lemma LayoutSkip(w: World, current: string, full: seq<string>, coords: map<string, Cell>, expanded: set<string>)
    requires full != [] && full[0] == current && current !in w
    requires LayoutInvariant(w, coords, full, expanded)
    ensures LayoutInvariant(w, coords, full[1..], expanded + {current})
  {
    assert forall q :: q in full ==> q == current || q in full[1..];
    assert Targets(w, current, true) == {};
  }

  /** What the `map` command shows: the cells of the grid and the locations listed apart. */
  datatype MapView = MapView(coords: map<string, Cell>, unconnected: set<string>)

  /** `all_locations - connected_locations`: the locations the search never reached. */
  function Unconnected(w: World, coords: map<string, Cell>): (u: set<string>)
    ensures forall x :: x in u <==> x in w && x !in coords
  {
    w.Keys - coords.Keys
  }

  /** `rev_coords[c]`: the locations that share cell `c`. */
  function Occupants(coords: map<string, Cell>, c: Cell): (names: set<string>)
    ensures forall x :: x in names <==> x in coords && coords[x] == c
  {
    set x | x in coords && coords[x] == c
  }

  // ---------------------------------------------------------------------
  // Cells

  const CellWidth := 20
  const Marker := " (*)"

  /**
   * A cell of the grid: the label (cut to fit, with `...`, when too long),
   * padded, then the player marker when the player stands there, in
   * brackets.
   */
  function GridCell(name: string, here: bool): (c: string)
    ensures |c| == CellWidth
    ensures c[0] == '[' && c[CellWidth - 1] == ']'
    ensures here ==> c[CellWidth - 1 - |Marker|..CellWidth - 1] == Marker
    ensures var room := CellWidth - 2 - (if here then |Marker| else 0);
            |name| <= room ==> c[1..1 + |name|] == name
    ensures var room := CellWidth - 2 - (if here then |Marker| else 0);
            |name| > room ==> c[1..room - 2] == name[..room - 3] && c[room - 2..room + 1] == "..."
  {
    var marker := if here then Marker else "";
    var room := CellWidth - 2 - |marker|;
    var shown := if |name| > room then name[..room - 3] + "..." else name;
    "[" + LeftJustify(shown, room) + marker + "]"
  }

  /** A cell of the unconnected row: the label cut to fit, without `...`. */
  function ListCell(name: string, here: bool): (c: string)
    ensures |c| == CellWidth
    ensures c[0] == '[' && c[CellWidth - 1] == ']'
    ensures here ==> c[CellWidth - 1 - |Marker|..CellWidth - 1] == Marker
    ensures var room := CellWidth - 2 - (if here then |Marker| else 0);
            var kept := if |name| < room then |name| else room;
            c[1..1 + kept] == name[..kept]
  {
    var marker := if here then Marker else "";
    var room := CellWidth - 2 - |marker|;
    var shown := if |name| > room then name[..room] else name;
    "[" + LeftJustify(shown, room) + marker + "]"
  }

  /** The unconnected row: one cell per location, in the order given. */
  function ListRow(names: seq<string>, player: string): (row: string)
    ensures |row| == CellWidth * |names|
    ensures forall i :: 0 <= i < |names| ==>
              row[CellWidth * i..CellWidth * (i + 1)] == ListCell(names[i], names[i] == player)
  {
    if names == [] then ""
    else
      var rest := ListRow(names[1..], player);
      var row := ListCell(names[0], names[0] == player) + rest;
      assert forall i :: 1 <= i < |names| ==>
        row[CellWidth * i..CellWidth * (i + 1)] == rest[CellWidth * (i - 1)..CellWidth * i];
      row
  }
}
