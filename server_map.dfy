/** The server's tile map (server/models/map.js): the collision lookup and the collision matrix built for path finding. */
module ServerMap {
  import opened Common

  /**
   * A loaded server map: tile sizes, the map size in tiles, one flat row-major array of tile ids
   * per tile layer (`matriz[l][y * mapWidth + x]`) and the collision class of each known tile id.
   */
  datatype ServerMap = ServerMap(
    tilewidth: int, tileheight: int,
    mapWidth: nat, mapHeight: nat,
    matriz: seq<seq<int>>,
    col: map<int, int>)

  /** `Math.floor(a / b)`; a zero divisor gives an infinite or NaN quotient, which no bounds test accepts. */
  function FloorDiv(a: int, b: int): (q: Option<int>)
    ensures b == 0 <==> q == None
    ensures q.Some? ==> q.value * b <= a < q.value * b + b || q.value * b >= a > q.value * b + b
  {
    if b > 0 then Some(a / b)
    else if b < 0 then
      var q := (-a) / (-b);
      assert (-a) == q * (-b) + (-a) % (-b);
      Some(q)
    else None
  }

  /** `this.col[tile_id] || 0`: the tile's collision class, or 0 for an id the table lacks or for an index past the layer's data. */
  function ClassAt(m: ServerMap, layer: int, index: int): (c: int)
    requires 0 <= layer < |m.matriz|
    ensures c != 0 ==> 0 <= index < |m.matriz[layer]| && m.matriz[layer][index] in m.col
  {
    if 0 <= index < |m.matriz[layer]| && m.matriz[layer][index] in m.col then m.col[m.matriz[layer][index]] else 0
  }

  /**
   * `check_col(x, y, layer)`: the collision class of the tile under the pixel, or `null` outside the
   * map or for a layer the map lacks.
   */
  function CheckCol(m: ServerMap, x: int, y: int, layer: int): (r: Option<int>)
    ensures r.Some? <==> (0 <= layer < |m.matriz| &&
      FloorDiv(x, m.tilewidth).Some? && FloorDiv(y, m.tileheight).Some? &&
      0 <= FloorDiv(x, m.tilewidth).value < m.mapWidth && 0 <= FloorDiv(y, m.tileheight).value < m.mapHeight)
    ensures r.Some? && r.value != 0 ==> r.value in m.col.Values
  {
    var tx := FloorDiv(x, m.tilewidth);
    var ty := FloorDiv(y, m.tileheight);
    if tx.Some? && ty.Some? && 0 <= tx.value < m.mapWidth && 0 <= ty.value < m.mapHeight then
      if 0 <= layer < |m.matriz| then Some(ClassAt(m, layer, ty.value * m.mapWidth + tx.value))
      else None
    else None
  }

  /** A tile is blocked when some layer gives it a non-zero (truthy) collision class. */
  ghost predicate Blocked(m: ServerMap, x: int, y: int) {
    exists l :: LayerBlocks(m, l, x, y)
  }

  /** Layer `l` exists and gives the tile at column `x`, row `y` a non-zero class. */
  predicate LayerBlocks(m: ServerMap, l: int, x: int, y: int) {
    0 <= l < |m.matriz| && ClassAt(m, l, y * m.mapWidth + x) != 0
  }

  /**
   * `get_collision_matrix()`: a `mapHeight` x `mapWidth` grid holding 1 for a blocked tile and 0
   * for a free one; the layer scan stops at the first layer that blocks.
   */
  method CollisionMatrix(m: ServerMap) returns (matrix: seq<seq<int>>)
    ensures |matrix| == m.mapHeight
    ensures forall y :: 0 <= y < m.mapHeight ==> |matrix[y]| == m.mapWidth
    ensures forall y, x :: 0 <= y < m.mapHeight && 0 <= x < m.mapWidth ==>
      matrix[y][x] == if Blocked(m, x, y) then 1 else 0
  {
    matrix := [];
    var y := 0;
    while y < m.mapHeight
      invariant 0 <= y <= m.mapHeight
      invariant |matrix| == y
      invariant forall yy :: 0 <= yy < y ==> |matrix[yy]| == m.mapWidth
      invariant forall yy, x :: 0 <= yy < y && 0 <= x < m.mapWidth ==>
        matrix[yy][x] == if Blocked(m, x, yy) then 1 else 0
    {
      var row: seq<int> := [];
      var x := 0;
      while x < m.mapWidth
        invariant 0 <= x <= m.mapWidth
        invariant |row| == x
        invariant forall xx :: 0 <= xx < x ==> row[xx] == if Blocked(m, xx, y) then 1 else 0
      {
        var blocked := 0;
        var l := 0;
        while l < |m.matriz|
          invariant 0 <= l <= |m.matriz|
          invariant blocked == 0 ==> forall k :: 0 <= k < l ==> !LayerBlocks(m, k, x, y)
          invariant blocked == 1 ==> Blocked(m, x, y)
          invariant blocked == 0 || blocked == 1
        {
          if LayerBlocks(m, l, x, y) {
            blocked := 1;
            break;
          }
          l := l + 1;
        }
        row := row + [blocked];
        x := x + 1;
      }
      matrix := matrix + [row];
      y := y + 1;
    }
  }

  /**
   * The matrix agrees with `check_col`: with positive tile sizes, a tile is blocked exactly when
   * some layer's lookup at the tile's top-left pixel is a non-zero class.
   */
  lemma BlockedMatchesCheckCol(m: ServerMap, x: nat, y: nat)
    requires m.tilewidth > 0 && m.tileheight > 0
    requires x < m.mapWidth && y < m.mapHeight
    ensures Blocked(m, x, y) <==>
      exists l :: 0 <= l < |m.matriz| && CheckCol(m, x * m.tilewidth, y * m.tileheight, l) != Some(0)
  {
    DivInSpan(m.tilewidth, x, x * m.tilewidth);
    DivInSpan(m.tileheight, y, y * m.tileheight);
    forall l | 0 <= l < |m.matriz|
      ensures LayerBlocks(m, l, x, y) <==> CheckCol(m, x * m.tilewidth, y * m.tileheight, l) != Some(0)
    {
    }
  }

  /** `check_col` is `null` for every negative tile coordinate, whatever the layer. */
  lemma NegativePixelIsNull(m: ServerMap, x: int, y: int, layer: int)
    requires m.tilewidth > 0 && m.tileheight > 0
    requires x < 0 || y < 0
    ensures CheckCol(m, x, y, layer) == None
  {
    if x < 0 { DivNegative(x, m.tilewidth); } else { DivNegative(y, m.tileheight); }
  }
}
