/**
 * Collisions/SpatialHash.swift: the broad phase. Space is cut into square
 * cells; every object is recorded in each cell its bounding box reaches,
 * and objects that share a cell become candidates for the narrow phase.
 *
 * An object is identified by itself (a rigid body's id is its object
 * identity). The hash keeps two dictionaries in step: the objects of each
 * cell, and the cells of each object.
 */
module SpatialHashing {
  import opened Numerics
  import opened Points
  import opened BoundingBoxes

  datatype CellIndex = CellIndex(x: int, y: int)

  /** Swift's `Int(_: Double)`: the integer part, truncating toward zero. */
  function TruncateTowardZero(r: real): (i: int)
    ensures 0.0 <= r ==> 0 <= i && i as real <= r < i as real + 1.0
    ensures r < 0.0 ==> i <= 0 && i as real - 1.0 < r <= i as real
  {
    if 0.0 <= r then r.Floor else -((-r).Floor)
  }

  /** Truncation keeps the order of its arguments. */
  lemma TruncateMonotone(a: real, b: real)
    requires a <= b
    ensures TruncateTowardZero(a) <= TruncateTowardZero(b)
  {
  }

  /**
   * The coordinate `v` lies in cell `i` of width `cellSize`: cell i > 0
   * spans [i, i + 1) cell widths, cell i < 0 spans (i - 1, i], and cell 0
   * spans (-1, 1).
   */
  predicate InCell(v: real, i: int, cellSize: real) {
    (0.0 <= v ==> i as real * cellSize <= v < (i as real + 1.0) * cellSize) &&
    (v < 0.0 ==> (i as real - 1.0) * cellSize < v <= i as real * cellSize)
  }

  lemma TruncationInCell(v: real, cellSize: real)
    requires 0.0 < cellSize
    ensures InCell(v, TruncateTowardZero(v / cellSize), cellSize)
  {
    var q := v / cellSize;
    var i := TruncateTowardZero(q) as real;
    assert q * cellSize == v;
    assert (q - i) * cellSize == v - i * cellSize;
    assert (i + 1.0 - q) * cellSize == (i + 1.0) * cellSize - v;
    assert (q - (i - 1.0)) * cellSize == v - (i - 1.0) * cellSize;
    if 0.0 <= v {
      if i < q {
        MulPositive(q - i, cellSize);
      }
      MulPositive(i + 1.0 - q, cellSize);
    } else {
      MulPositive(q - (i - 1.0), cellSize);
      if q < i {
        MulPositive(i - q, cellSize);
      }
    }
  }

  /**
   * The cells with x in [lo.x, hi.x] and y in [lo.y, hi.y], column by
   * column and bottom to top within a column, as the nested loops of
   * `cellIndicesFor` enumerate them.
   */
  function CellRange(lo: CellIndex, hi: CellIndex): seq<CellIndex>
    decreases hi.x - lo.x
  {
    if hi.x < lo.x then [] else CellRange(lo, CellIndex(hi.x - 1, hi.y)) + Column(hi.x, lo.y, hi.y)
  }

  /** The cells (x, lo) .. (x, hi), bottom to top. */
  function Column(x: int, lo: int, hi: int): seq<CellIndex>
    decreases hi - lo
  {
    if hi < lo then [] else Column(x, lo, hi - 1) + [CellIndex(x, hi)]
  }

  lemma {:induction false} ColumnContents(x: int, lo: int, hi: int)
    ensures forall c :: c in Column(x, lo, hi) <==> c.x == x && lo <= c.y <= hi
    ensures |Column(x, lo, hi)| == if hi < lo then 0 else hi - lo + 1
    ensures forall i, j :: 0 <= i < j < |Column(x, lo, hi)| ==> Column(x, lo, hi)[i] != Column(x, lo, hi)[j]
    decreases hi - lo
  {
    if lo <= hi {
      ColumnContents(x, lo, hi - 1);
      var prefix := Column(x, lo, hi - 1);
      forall i, j | 0 <= i < j < |Column(x, lo, hi)|
        ensures Column(x, lo, hi)[i] != Column(x, lo, hi)[j]
      {
        if j == |prefix| {
          assert Column(x, lo, hi)[i] == prefix[i];
          assert prefix[i] in prefix;
        }
      }
    }
  }

  /**
   * The cell range holds exactly the cells of the rectangle of indices,
   * each once; it is non-empty when the rectangle is.
   */
  lemma {:induction false} CellRangeContents(lo: CellIndex, hi: CellIndex)
    ensures forall c :: c in CellRange(lo, hi) <==> lo.x <= c.x <= hi.x && lo.y <= c.y <= hi.y
    ensures Distinct(CellRange(lo, hi))
    ensures lo.x <= hi.x && lo.y <= hi.y ==> |CellRange(lo, hi)| > 0
    decreases hi.x - lo.x
  {
    if lo.x <= hi.x {
      var prefix := CellRange(lo, CellIndex(hi.x - 1, hi.y));
      var column := Column(hi.x, lo.y, hi.y);
      CellRangeContents(lo, CellIndex(hi.x - 1, hi.y));
      ColumnContents(hi.x, lo.y, hi.y);
      forall i, j | 0 <= i < j < |prefix + column|
        ensures (prefix + column)[i] != (prefix + column)[j]
      {
        if j >= |prefix| {
          if i < |prefix| {
            assert prefix[i] in prefix;
            assert column[j - |prefix|] in column;
          } else {
            assert (prefix + column)[i] == column[i - |prefix|];
          }
        }
      }
    }
  }

  predicate Distinct<T(==)>(s: seq<T>) {
    forall i, j :: 0 <= i < j < |s| ==> s[i] != s[j]
  }

  /** `s` with every occurrence of `x` removed, the others kept in order. */
  function Without<T(==)>(s: seq<T>, x: T): (r: seq<T>)
    ensures forall i | 0 <= i < |r| :: r[i] in s && r[i] != x
    ensures forall i | 0 <= i < |s| && s[i] != x :: s[i] in r
    ensures |r| <= |s|
  {
    if s == [] then []
    else if s[0] == x then Without(s[1..], x)
    else [s[0]] + Without(s[1..], x)
  }

  /** Removing an element that is not there changes nothing. */
  lemma {:induction false} WithoutAbsent<T>(s: seq<T>, x: T)
    requires x !in s
    ensures Without(s, x) == s
  {
    if s != [] {
      assert s == [s[0]] + s[1..];
      WithoutAbsent(s[1..], x);
    }
  }

  /** The objects recorded in a cell; a cell never written holds none. */
  function ObjectsIn<T>(cells: map<CellIndex, seq<T>>, c: CellIndex): seq<T>
  {
    if c in cells then cells[c] else []
  }

  /**
   * The cell map after `item` is appended to each of `indices` in turn: the
   * listed cells are created when missing and every other cell is kept.
   */
  function AddedToCells<T>(cells: map<CellIndex, seq<T>>, indices: seq<CellIndex>, item: T): (r: map<CellIndex, seq<T>>)
    ensures forall c :: c in r <==> c in cells || c in indices
    ensures forall c | c in r && c !in indices :: r[c] == cells[c]
    decreases |indices|
  {
    if indices == [] then cells
    else
      var before := AddedToCells(cells, indices[..|indices| - 1], item);
      var c := indices[|indices| - 1];
      before[c := ObjectsIn(before, c) + [item]]
  }

  /**
   * The cell map after every occurrence of `item` is dropped from each of
   * `indices` in turn: the listed cells are kept or created (perhaps
   * empty) and every other cell is kept.
   */
  function RemovedFromCells<T(==)>(cells: map<CellIndex, seq<T>>, indices: seq<CellIndex>, item: T): (r: map<CellIndex, seq<T>>)
    ensures forall c :: c in r <==> c in cells || c in indices
    ensures forall c | c in r && c !in indices :: r[c] == cells[c]
    decreases |indices|
  {
    if indices == [] then cells
    else
      var before := RemovedFromCells(cells, indices[..|indices| - 1], item);
      var c := indices[|indices| - 1];
      before[c := Without(ObjectsIn(before, c), item)]
  }

  /** After adding, a listed cell holds what it held plus `item`; any other cell holds what it held. */
  lemma {:induction false} AddedToCellsHolds<T>(cells: map<CellIndex, seq<T>>, indices: seq<CellIndex>, item: T, c: CellIndex, o: T)
    requires c in AddedToCells(cells, indices, item)
    ensures o in AddedToCells(cells, indices, item)[c] <==> o in ObjectsIn(cells, c) || (c in indices && o == item)
    decreases |indices|
  {
    if indices != [] {
      var prefix, last := indices[..|indices| - 1], indices[|indices| - 1];
      assert indices == prefix + [last];
      if c != last || c in AddedToCells(cells, prefix, item) {
        AddedToCellsHolds(cells, prefix, item, c, o);
      }
    }
  }

  /** After removing, a listed cell holds what it held except `item`; any other cell holds what it held. */
  lemma {:induction false} RemovedFromCellsHolds<T>(cells: map<CellIndex, seq<T>>, indices: seq<CellIndex>, item: T, c: CellIndex, o: T)
    requires c in RemovedFromCells(cells, indices, item)
    ensures o in RemovedFromCells(cells, indices, item)[c] <==> o in ObjectsIn(cells, c) && !(c in indices && o == item)
    decreases |indices|
  {
    if indices != [] {
      var prefix, last := indices[..|indices| - 1], indices[|indices| - 1];
      assert indices == prefix + [last];
      if c != last || c in RemovedFromCells(cells, prefix, item) {
        RemovedFromCellsHolds(cells, prefix, item, c, o);
      }
    }
  }

  /**
   * The two dictionaries agree: an object is recorded in a cell exactly
   * when that cell is among the object's cells.
   */
  ghost predicate Consistent<T>(cells: map<CellIndex, seq<T>>, cellsOf: map<T, seq<CellIndex>>) {
    (forall o, c {:trigger Listed(cellsOf, o, c)} | o in cellsOf && c in cellsOf[o] :: Recorded(cells, o, c)) &&
    (forall o, c {:trigger Recorded(cells, o, c)} | c in cells && o in cells[c] :: Listed(cellsOf, o, c))
  }

  /** `c` is among the cells recorded for `o`. */
  ghost predicate Listed<T>(cellsOf: map<T, seq<CellIndex>>, o: T, c: CellIndex) {
    o in cellsOf && c in cellsOf[o]
  }

  /** `o` is among the objects recorded in `c`. */
  ghost predicate Recorded<T>(cells: map<CellIndex, seq<T>>, o: T, c: CellIndex) {
    c in cells && o in cells[c]
  }

  /** Adding an untracked object to the cells `indices` keeps the dictionaries in agreement. */
  lemma AddKeepsConsistent<T>(cells: map<CellIndex, seq<T>>, cellsOf: map<T, seq<CellIndex>>, indices: seq<CellIndex>, item: T)
    requires Consistent(cells, cellsOf)
    requires item !in cellsOf
    ensures Consistent(AddedToCells(cells, indices, item), cellsOf[item := indices])
  {
    var newCells, newCellsOf := AddedToCells(cells, indices, item), cellsOf[item := indices];
    forall o, c | o in newCellsOf && c in newCellsOf[o]
      ensures Recorded(newCells, o, c)
    {
      if o != item {
        assert Listed(cellsOf, o, c);
      }
      AddedToCellsHolds(cells, indices, item, c, o);
    }
    forall o, c | c in newCells && o in newCells[c]
      ensures Listed(newCellsOf, o, c)
    {
      AddedToCellsHolds(cells, indices, item, c, o);
      assert Recorded(cells, o, c) ==> Listed(cellsOf, o, c);
    }
    assert Consistent(newCells, newCellsOf);
  }

  /** Removing a tracked object from the cells recorded for it keeps the dictionaries in agreement. */
  lemma RemoveKeepsConsistent<T>(cells: map<CellIndex, seq<T>>, cellsOf: map<T, seq<CellIndex>>, item: T)
    requires Consistent(cells, cellsOf)
    ensures var indices := if item in cellsOf then cellsOf[item] else [];
      Consistent(RemovedFromCells(cells, indices, item), cellsOf - {item})
  {
    var indices := if item in cellsOf then cellsOf[item] else [];
    var newCells, newCellsOf := RemovedFromCells(cells, indices, item), cellsOf - {item};
    forall o, c | o in newCellsOf && c in newCellsOf[o]
      ensures Recorded(newCells, o, c)
    {
      assert Listed(cellsOf, o, c);
      RemovedFromCellsHolds(cells, indices, item, c, o);
    }
    forall o, c | c in newCells && o in newCells[c]
      ensures Listed(newCellsOf, o, c)
    {
      RemovedFromCellsHolds(cells, indices, item, c, o);
      assert Recorded(cells, o, c) && o != item by {
        if c !in indices {
          assert Recorded(cells, o, c);
          assert Listed(cellsOf, o, c);
        }
      }
      assert Listed(cellsOf, o, c);
    }
    assert Consistent(newCells, newCellsOf);
  }

  /** No cell holds `item`. */
  predicate NowhereIn<T(==)>(cells: map<CellIndex, seq<T>>, item: T) {
    forall c | c in cells :: item !in cells[c]
  }

  /** Removing a tracked object from the cells recorded for it neither creates nor drops a cell. */
  lemma RemovedKeepsCells<T>(cells: map<CellIndex, seq<T>>, cellsOf: map<T, seq<CellIndex>>, item: T)
    requires Consistent(cells, cellsOf)
    ensures RemovedFromCells(cells, if item in cellsOf then cellsOf[item] else [], item).Keys == cells.Keys
  {
    var indices := if item in cellsOf then cellsOf[item] else [];
    forall c | c in indices
      ensures c in cells
    {
      assert Listed(cellsOf, item, c);
    }
  }

  /** After removing a tracked object from the cells recorded for it, no cell holds it. */
  lemma RemovedLeavesNoTrace<T>(cells: map<CellIndex, seq<T>>, cellsOf: map<T, seq<CellIndex>>, item: T)
    requires Consistent(cells, cellsOf)
    ensures NowhereIn(RemovedFromCells(cells, if item in cellsOf then cellsOf[item] else [], item), item)
  {
    var indices := if item in cellsOf then cellsOf[item] else [];
    var removed := RemovedFromCells(cells, indices, item);
    forall c | c in removed
      ensures item !in removed[c]
    {
      RemovedFromCellsHolds(cells, indices, item, c, item);
      if c in cells && item in cells[c] {
        assert Recorded(cells, item, c);
      }
    }
  }

  class SpatialHash<T(==)> {
    /** The objects recorded in each cell, in the order they were added. */
    var cells: map<CellIndex, seq<T>>
    /** The cells each tracked object was recorded in. */
    var cellsOf: map<T, seq<CellIndex>>
    const cellSize: real

    /**
     * The two dictionaries agree: an object is recorded in a cell exactly
     * when that cell is among the object's cells.
     */
    ghost predicate Valid()
      reads this
    {
      0.0 < cellSize && Consistent(cells, cellsOf)
    }

    constructor (cellSize: real)
      requires 0.0 < cellSize
      ensures Valid()
      ensures this.cellSize == cellSize && cells == map[] && cellsOf == map[]
    {
      this.cellSize := cellSize;
      cells := map[];
      cellsOf := map[];
    }

    /**
     * The cell a point falls in. Truncation toward zero makes the cells
     * either side of an axis both index 0, so those two are twice as wide.
     */
    function CellIndexAt(p: Point): (c: CellIndex)
      requires 0.0 < cellSize
      ensures InCell(p.x, c.x, cellSize) && InCell(p.y, c.y, cellSize)
    {
      TruncationInCell(p.x, cellSize);
      TruncationInCell(p.y, cellSize);
      CellIndex(TruncateTowardZero(p.x / cellSize), TruncateTowardZero(p.y / cellSize))
    }

    /** The cells a bounding box reaches, from its minimum corner's cell to its maximum corner's. */
    function CellsCovering(box: BoundingBox): seq<CellIndex>
      requires 0.0 < cellSize
    {
      CellRange(CellIndexAt(Point(box.minX, box.minY)), CellIndexAt(Point(box.maxX, box.maxY)))
    }

    /** Every cell from the cell of the box's minimum corner to the cell of its maximum corner. */
    method CellIndicesFor(box: BoundingBox) returns (indices: seq<CellIndex>)
      requires 0.0 < cellSize
      ensures indices == CellRange(CellIndexAt(Point(box.minX, box.minY)), CellIndexAt(Point(box.maxX, box.maxY)))
    {
      var minCellIdx := CellIndexAt(Point(box.minX, box.minY));
      var maxCellIdx := CellIndexAt(Point(box.maxX, box.maxY));
      indices := [];
      var x := minCellIdx.x;
      while x <= maxCellIdx.x
        invariant minCellIdx.x <= x <= maxCellIdx.x + 1 || (maxCellIdx.x < minCellIdx.x && x == minCellIdx.x)
        invariant indices == CellRange(minCellIdx, CellIndex(x - 1, maxCellIdx.y))
        decreases maxCellIdx.x - x
      {
        var y := minCellIdx.y;
        var column := [];
        while y <= maxCellIdx.y
          invariant minCellIdx.y <= y <= maxCellIdx.y + 1 || (maxCellIdx.y < minCellIdx.y && y == minCellIdx.y)
          invariant column == Column(x, minCellIdx.y, y - 1)
          decreases maxCellIdx.y - y
        {
          column := column + [CellIndex(x, y)];
          y := y + 1;
        }
        indices := indices + column;
        x := x + 1;
      }
    }

    /** Adds `item` to one cell, after the objects already there. */
    method AddObjectAt(idx: CellIndex, item: T)
      modifies this
      ensures cells == old(cells)[idx := ObjectsIn(old(cells), idx) + [item]]
      ensures cellsOf == old(cellsOf)
    {
      var objectsInCell := ObjectsIn(cells, idx);
      cells := cells[idx := objectsInCell + [item]];
    }

    /** Drops `item` from one cell, keeping the other objects in order; the cell stays, possibly empty. */
    method RemoveObjectAt(idx: CellIndex, item: T)
      modifies this
      ensures cells == old(cells)[idx := Without(ObjectsIn(old(cells), idx), item)]
      ensures cellsOf == old(cellsOf)
    {
      var objectsInCell := ObjectsIn(cells, idx);
      cells := cells[idx := Without(objectsInCell, item)];
    }

    /**
     * Records an untracked object in every cell its bounding box reaches;
     * an object already tracked is left where it is.
     */
    method AddBroadPhaseObject(item: T, box: BoundingBox)
      requires Valid()
      modifies this
      ensures Valid()
      ensures old(item in cellsOf) ==> cells == old(cells) && cellsOf == old(cellsOf)
      ensures old(item !in cellsOf) ==>
        var indices := CellRange(CellIndexAt(Point(box.minX, box.minY)), CellIndexAt(Point(box.maxX, box.maxY)));
        cellsOf == old(cellsOf)[item := indices] && cells == AddedToCells(old(cells), indices, item)
    {
      if item in cellsOf {
        return;
      }
      var indices := CellIndicesFor(box);
      CellRangeContents(CellIndexAt(Point(box.minX, box.minY)), CellIndexAt(Point(box.maxX, box.maxY)));
      AddKeepsConsistent(cells, cellsOf, indices, item);
      AddObjectToCells(indices, item);
      cellsOf := cellsOf[item := indices];
    }

    /** The loop of `addBroadPhaseObject`: appends `item` to each of the (distinct) `indices` in turn. */
    method AddObjectToCells(indices: seq<CellIndex>, item: T)
      modifies this
      ensures cells == AddedToCells(old(cells), indices, item)
      ensures cellsOf == old(cellsOf)
    {
      ghost var original := cells;
      var i := 0;
      while i < |indices|
        invariant 0 <= i <= |indices|
        invariant cells == AddedToCells(original, indices[..i], item)
        invariant cellsOf == old(cellsOf)
      {
        var idx := indices[i];
        assert indices[..i + 1][..i] == indices[..i];
        AddObjectAt(idx, item);
        i := i + 1;
      }
      assert indices[..i] == indices;
    }

    /**
     * Forgets an object: it is dropped from every cell recorded for it and
     * is no longer tracked. Removing an untracked object changes nothing.
     */
    method RemoveBroadPhaseObject(item: T)
      requires Valid()
      modifies this
      ensures Valid()
      ensures cellsOf == old(cellsOf) - {item}
      ensures cells == RemovedFromCells(old(cells), if item in old(cellsOf) then old(cellsOf)[item] else [], item)
      ensures cells.Keys == old(cells.Keys)
      ensures NowhereIn(cells, item)
    {
      var indices := if item in cellsOf then cellsOf[item] else [];
      RemoveKeepsConsistent(cells, cellsOf, item);
      RemovedKeepsCells(cells, cellsOf, item);
      RemovedLeavesNoTrace(cells, cellsOf, item);
      cellsOf := cellsOf - {item};
      RemoveObjectFromCells(indices, item);
    }

    /** The loop of `removeBroadPhaseObject`: drops `item` from each of `indices` in turn. */
    method RemoveObjectFromCells(indices: seq<CellIndex>, item: T)
      modifies this
      ensures cells == RemovedFromCells(old(cells), indices, item)
      ensures cellsOf == old(cellsOf)
    {
      ghost var original := cells;
      var i := 0;
      while i < |indices|
        invariant 0 <= i <= |indices|
        invariant cells == RemovedFromCells(original, indices[..i], item)
        invariant cellsOf == old(cellsOf)
      {
        var idx := indices[i];
        assert indices[..i + 1][..i] == indices[..i];
        RemoveObjectAt(idx, item);
        i := i + 1;
      }
      assert indices[..i] == indices;
    }

    /** Re-records an object under its current bounding box; an untracked object is simply added. */
    method UpdateBroadPhaseObject(item: T, box: BoundingBox)
      requires Valid()
      modifies this
      ensures Valid()
      ensures cellsOf == (old(cellsOf) - {item})[item := CellRange(CellIndexAt(Point(box.minX, box.minY)), CellIndexAt(Point(box.maxX, box.maxY)))]
      ensures cells == AddedToCells(
        RemovedFromCells(old(cells), if item in old(cellsOf) then old(cellsOf)[item] else [], item),
        CellRange(CellIndexAt(Point(box.minX, box.minY)), CellIndexAt(Point(box.maxX, box.maxY))), item)
    {
      RemoveBroadPhaseObject(item);
      AddBroadPhaseObject(item, box);
    }

    /** The cells holding more than one object, with their contents: the candidate collision groups. */
    function CandidateCollisionGroups(): (groups: map<CellIndex, seq<T>>)
      reads this`cells
      ensures forall c | c in groups :: c in cells && groups[c] == cells[c] && |groups[c]| > 1
      ensures forall c | c in cells && |cells[c]| > 1 :: c in groups
    {
      map c | c in cells && |cells[c]| > 1 :: cells[c]
    }

    /**
     * Every point of a bounding box falls in one of the cells the box is
     * recorded in, so the range is never empty for a proper box.
     */
    lemma BoxCellsCoverBox(box: BoundingBox, p: Point)
      requires 0.0 < cellSize
      requires box.Contains(p)
      ensures CellIndexAt(p) in CellRange(CellIndexAt(Point(box.minX, box.minY)), CellIndexAt(Point(box.maxX, box.maxY)))
    {
      DivideMonotone(box.minX, p.x, cellSize);
      DivideMonotone(p.x, box.maxX, cellSize);
      DivideMonotone(box.minY, p.y, cellSize);
      DivideMonotone(p.y, box.maxY, cellSize);
      TruncateMonotone(box.minX / cellSize, p.x / cellSize);
      TruncateMonotone(p.x / cellSize, box.maxX / cellSize);
      TruncateMonotone(box.minY / cellSize, p.y / cellSize);
      TruncateMonotone(p.y / cellSize, box.maxY / cellSize);
      CellRangeContents(CellIndexAt(Point(box.minX, box.minY)), CellIndexAt(Point(box.maxX, box.maxY)));
    }

    /** Every object recorded in a cell is tracked. */
    lemma RecordedAreTracked(c: CellIndex)
      requires Valid() && c in cells
      ensures forall o | o in cells[c] :: o in cellsOf
    {
      forall o | o in cells[c]
        ensures o in cellsOf
      {
        assert Recorded(cells, o, c);
        assert Listed(cellsOf, o, c);
      }
    }

    /**
     * Two different objects recorded in a common cell are found together in
     * that cell's candidate group: the broad phase misses no pair that
     * shares a cell.
     */
    lemma SharedCellIsCandidate(a: T, b: T, c: CellIndex)
      requires Valid()
      requires a != b && a in cellsOf && b in cellsOf && c in cellsOf[a] && c in cellsOf[b]
      ensures c in CandidateCollisionGroups()
      ensures a in CandidateCollisionGroups()[c] && b in CandidateCollisionGroups()[c]
    {
      assert Listed(cellsOf, a, c) && Listed(cellsOf, b, c);
    }
  }
}
