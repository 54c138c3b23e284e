/** The client tile map's collision lookup (`Map.check_col` in core/map.py). */
module TileMap {
  import opened Common
  import World

  /**
   * A loaded map: tile sizes in pixels, the map size in tiles, the tile ids as a
   * layer x row x column grid (`matriz`) and the collision class of each known tile id (`col`).
   */
  datatype GameMap = GameMap(
    tilewidth: int, tileheight: int,
    mapWidth: nat, mapHeight: nat,
    matriz: seq<seq<seq<int>>>,
    col: map<int, int>)

  /** The shape a loaded map has: positive tile sizes and a grid of `mapHeight` rows of `mapWidth` ids per layer. */
  predicate Valid(m: GameMap) {
    m.tilewidth > 0 && m.tileheight > 0 &&
    forall l :: 0 <= l < |m.matriz| ==>
      |m.matriz[l]| == m.mapHeight &&
      forall r :: 0 <= r < m.mapHeight ==> |m.matriz[l][r]| == m.mapWidth
  }

  /** What `check_col` gives back: a collision class or `None`, or numpy's IndexError for a layer the grid lacks. */
  datatype Lookup = Found(collision: Option<int>) | IndexError

  /** True when the pixel lies in the tile at column `tx`, row `ty`. */
  predicate InTile(m: GameMap, x: int, y: int, tx: int, ty: int) {
    tx * m.tilewidth <= x < tx * m.tilewidth + m.tilewidth &&
    ty * m.tileheight <= y < ty * m.tileheight + m.tileheight
  }

  /** True when the pixel lies inside the map's pixel area. */
  predicate PixelInMap(m: GameMap, x: int, y: int) {
    0 <= x < m.mapWidth * m.tilewidth && 0 <= y < m.mapHeight * m.tileheight
  }

  /**
   * `check_col(x, y, layer)`: floor-divide the pixel by the tile size; inside the map, read the
   * tile id (a negative layer counts from the end, as numpy does) and look up its collision class.
   * Outside the map the answer is `None`.
   */
  function CheckCol(m: GameMap, x: int, y: int, layer: int): (r: Lookup)
    requires Valid(m)
    ensures !PixelInMap(m, x, y) ==> r == Found(None)
    ensures r == IndexError <==> PixelInMap(m, x, y) && !(-|m.matriz| <= layer < |m.matriz|)
    ensures r.Found? && r.collision.Some? ==> r.collision.value in m.col.Values
  {
    var tileX := x / m.tilewidth;
    var tileY := y / m.tileheight;
    PixelTileBounds(m.tilewidth, m.mapWidth, x);
    PixelTileBounds(m.tileheight, m.mapHeight, y);
    if 0 <= tileX < m.mapWidth && 0 <= tileY < m.mapHeight then
      if -|m.matriz| <= layer < |m.matriz| then
        var l := if layer < 0 then layer + |m.matriz| else layer;
        var tileId := m.matriz[l][tileY][tileX];
        Found(if tileId in m.col then Some(m.col[tileId]) else None)
      else IndexError
    else Found(None)
  }

  /** Floor division by a positive size puts a coordinate in range `[0, n)` exactly when it lies in `[0, n * size)`. */
  lemma PixelTileBounds(size: int, n: nat, v: int)
    requires size > 0
    ensures 0 <= v / size < n <==> 0 <= v < n * size
  {
    var q, r := v / size, v % size;
    assert v == q * size + r && 0 <= r < size;
    if 0 <= q < n {
      MulMonotone(q, n - 1, size);
      MulMonotone(0, q, size);
    }
    if 0 <= v < n * size {
      if q < 0 { MulMonotone(q, -1, size); }
      if q >= n { MulMonotone(n, q, size); }
    }
  }

  /** The lookup depends only on the tile the pixel falls in: every pixel of one tile gives the same answer. */
  lemma SameTileSameAnswer(m: GameMap, x1: int, y1: int, x2: int, y2: int, tx: int, ty: int, layer: int)
    requires Valid(m)
    requires InTile(m, x1, y1, tx, ty) && InTile(m, x2, y2, tx, ty)
    ensures CheckCol(m, x1, y1, layer) == CheckCol(m, x2, y2, layer)
  {
    DivInSpan(m.tilewidth, tx, x1);
    DivInSpan(m.tilewidth, tx, x2);
    DivInSpan(m.tileheight, ty, y1);
    DivInSpan(m.tileheight, ty, y2);
  }

  /** Inside the map and on an existing layer, the answer is the collision class of that tile's id, or `None` for an id the table lacks. */
  lemma InsideReadsTile(m: GameMap, tx: nat, ty: nat, x: int, y: int, layer: nat)
    requires Valid(m)
    requires tx < m.mapWidth && ty < m.mapHeight && layer < |m.matriz|
    requires InTile(m, x, y, tx, ty)
    ensures var id := m.matriz[layer][ty][tx];
      CheckCol(m, x, y, layer) == Found(if id in m.col then Some(m.col[id]) else None)
  {
    DivInSpan(m.tilewidth, tx, x);
    DivInSpan(m.tileheight, ty, y);
  }

  /** A negative layer index counts from the last layer, as numpy indexing does. */
  lemma NegativeLayerCountsFromEnd(m: GameMap, x: int, y: int, k: nat)
    requires Valid(m)
    requires 1 <= k <= |m.matriz|
    ensures CheckCol(m, x, y, 0 - k) == CheckCol(m, x, y, |m.matriz| - k)
  {
  }

  /**
   * The lookup `Entity.move` and `Entity.run` read through `map.check_col`, for a map with at
   * least the two layers they ask for: the collision class, or `None` (an IndexError cannot arise
   * on layers 0 and 1).
   */
  function AsLookup(m: GameMap): (f: World.TileLookup)
    requires Valid(m) && |m.matriz| >= 2
    ensures forall x, y, layer :: 0 <= layer < 2 ==> CheckCol(m, x, y, layer) == Found(f(x, y, layer))
  {
    (x: int, y: int, layer: int) =>
      if Valid(m) && CheckCol(m, x, y, layer).Found? then CheckCol(m, x, y, layer).collision else None
  }

  /**
   * An entity reads collision class `c` at a pixel exactly when `check_col` gives `c` on layer 0 or
   * layer 1 there; a pixel outside the map reads no class at all, so it never blocks.
   */
  lemma LookupReadsCheckCol(m: GameMap, x: int, y: int, c: int)
    requires Valid(m) && |m.matriz| >= 2
    ensures World.PixelIs(AsLookup(m), x, y, c) <==> CheckCol(m, x, y, 0) == Found(Some(c)) || CheckCol(m, x, y, 1) == Found(Some(c))
    ensures !PixelInMap(m, x, y) ==> !World.PixelIs(AsLookup(m), x, y, c)
  {
    var f := AsLookup(m);
    assert CheckCol(m, x, y, 0) == Found(f(x, y, 0)) && CheckCol(m, x, y, 1) == Found(f(x, y, 1));
  }
}
