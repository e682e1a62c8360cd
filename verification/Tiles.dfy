/** Cutting a raster into tiles (src/raster.rs). */
module Tiles {
  import opened Grids
  import opened Rasters

  function Min(a: nat, b: nat): nat {
    if a < b then a else b
  }

  /** How many tiles of `tile` pixels a side of `size` pixels takes. */
  function Across(size: nat, tile: nat): nat
    requires tile > 0
  {
    (size + tile - 1) / tile
  }

  lemma StepsAcross(size: nat, tile: nat, step: nat)
    requires tile > 0
    ensures step * tile < size <==> step < Across(size, tile)
  {
    Quotient(size + tile - 1, tile, step);
  }

  /** The first `rows` rows of the part of the image at column `x` and row `y`. */
  function Part(image: Raster, x: nat, y: nat, width: nat, rows: nat): (pixels: seq<Pixel>)
    requires image.Valid() && x + width <= image.width && y + rows <= image.height
    ensures |pixels| == rows * width
  {
    if rows == 0 then [] else
    RunInside(y + rows - 1, image.width, image.height, x, width);
    var start := Offset(x, y + rows - 1, image.width);
    Part(image, x, y, width, rows - 1) + image.pixels[start..start + width]
  }

  lemma {:induction false} PartAt(image: Raster, x: nat, y: nat, width: nat, rows: nat, i: nat, j: nat)
    requires image.Valid() && x + width <= image.width && y + rows <= image.height
    requires i < width && j < rows
    ensures Offset(i, j, width) < rows * width
    ensures Part(image, x, y, width, rows)[Offset(i, j, width)] == image.At(x + i, y + j)
  {
    CellInside(i, j, width, rows);
    RunInside(y + rows - 1, image.width, image.height, x, width);
    var before := Part(image, x, y, width, rows - 1);
    if j < rows - 1 {
      PartAt(image, x, y, width, rows - 1, i, j);
    } else {
      assert Offset(i, j, width) == |before| + i;
    }
  }

  /** The tile whose upper left pixel is at column `x` and row `y` of the image. */
  function Tile(image: Raster, x: nat, y: nat, tileWidth: nat, tileHeight: nat): Raster
    requires image.Valid() && x < image.width && y < image.height
  {
    var width, height := Min(tileWidth, image.width - x), Min(tileHeight, image.height - y);
    Raster(width, height, Part(image, x, y, width, height))
  }

  /** A tile shows the pixels of its place in the image. */
  lemma TileShows(image: Raster, x: nat, y: nat, tileWidth: nat, tileHeight: nat, i: nat, j: nat)
    requires image.Valid() && x < image.width && y < image.height
    requires i < Min(tileWidth, image.width - x) && j < Min(tileHeight, image.height - y)
    ensures var tile := Tile(image, x, y, tileWidth, tileHeight);
            tile.Valid() && tile.At(i, j) == image.At(x + i, y + j)
  {
    var width, height := Min(tileWidth, image.width - x), Min(tileHeight, image.height - y);
    SmallerArea(width, height, image.width, image.height);
    PartAt(image, x, y, width, height, i, j);
  }

  /** Where the tile with number `k` in its row or column starts. */
  function Start(k: nat, tile: nat): nat {
    k * tile
  }

  /** The n-th tile in row-major order. */
  ghost predicate IsTile(image: Raster, tileWidth: nat, tileHeight: nat, n: nat, tile: Raster)
    requires image.Valid() && tileWidth > 0
  {
    var columns := Across(image.width, tileWidth);
    columns > 0 &&
    var x, y := Start(n % columns, tileWidth), Start(n / columns, tileHeight);
    x < image.width && y < image.height && tile == Tile(image, x, y, tileWidth, tileHeight)
  }

  /** `tiles` starts the row-major list of tiles. */
  ghost predicate AreTiles(image: Raster, tileWidth: nat, tileHeight: nat, tiles: seq<Raster>)
    requires image.Valid() && tileWidth > 0
  {
    forall n: nat :: n < |tiles| ==> IsTile(image, tileWidth, tileHeight, n, tiles[n])
  }

  lemma NextTile(image: Raster, tileWidth: nat, tileHeight: nat, column: nat, row: nat)
    requires image.Valid() && tileWidth > 0 && column < Across(image.width, tileWidth)
    requires column * tileWidth < image.width && row * tileHeight < image.height
    ensures IsTile(image, tileWidth, tileHeight, row * Across(image.width, tileWidth) + column,
                   Tile(image, column * tileWidth, row * tileHeight, tileWidth, tileHeight))
  {
    hide Across, Tile;
    Cell(column, row, Across(image.width, tileWidth));
  }

  method CutTile(image: Raster, x: nat, y: nat, tileWidth: nat, tileHeight: nat) returns (tile: Raster)
    requires image.Valid() && x < image.width && y < image.height
    ensures tile == Tile(image, x, y, tileWidth, tileHeight)
  {
    hide Offset;
    var width := Min(tileWidth, image.width - x);
    var height := Min(tileHeight, image.height - y);
    var pixels: seq<Pixel> := [];
    for line := y to y + height
      invariant pixels == Part(image, x, y, width, line - y)
    {
      RunInside(line, image.width, image.height, x, width);
      var start := Offset(x, line, image.width);
      pixels := pixels + image.pixels[start..start + width];
    }
    return Raster(width, height, pixels);
  }

  method CutTiles(image: Raster, tileWidth: nat, tileHeight: nat) returns (result: Result<seq<Raster>>)
    requires image.Valid()
    ensures tileWidth == 0 || tileHeight == 0 ==> result == Err(Invalid)
    ensures tileWidth > 0 && tileHeight > 0 ==>
              && result.Ok?
              && |result.value| == Across(image.height, tileHeight) * Across(image.width, tileWidth)
              && AreTiles(image, tileWidth, tileHeight, result.value)
  {
    hide Across, IsTile, Tile;
    if tileWidth == 0 || tileHeight == 0 {
      return Err(Invalid);
    }
    ghost var columns := Across(image.width, tileWidth);
    ghost var rows := Across(image.height, tileHeight);
    var output: seq<Raster> := [];
    var y := 0;
    ghost var row := 0;
    while y < image.height
      invariant y == row * tileHeight && row <= rows
      invariant |output| == row * columns && AreTiles(image, tileWidth, tileHeight, output)
    {
      var x := 0;
      ghost var column := 0;
      while x < image.width
        invariant x == column * tileWidth && column <= columns
        invariant |output| == row * columns + column && AreTiles(image, tileWidth, tileHeight, output)
      {
        StepsAcross(image.width, tileWidth, column);
        NextTile(image, tileWidth, tileHeight, column, row);
        var tile := CutTile(image, x, y, tileWidth, tileHeight);
        output := output + [tile];
        x := x + tileWidth;
        column := column + 1;
      }
      StepsAcross(image.width, tileWidth, column);
      StepsAcross(image.height, tileHeight, row);
      y := y + tileHeight;
      row := row + 1;
    }
    StepsAcross(image.height, tileHeight, row);
    return Ok(output);
  }

  // ---------------------------------------------------------------- a partition

  /** The pixel belongs to the n-th tile. */
  predicate Covers(w: nat, tileWidth: nat, tileHeight: nat, n: nat, x: nat, y: nat)
    requires tileWidth > 0 && x < w
  {
    StepsAcross(w, tileWidth, 0);
    var columns := Across(w, tileWidth);
    var left, top := Start(n % columns, tileWidth), Start(n / columns, tileHeight);
    left <= x < left + tileWidth && top <= y < top + tileHeight
  }

  lemma InStep(k: nat, tile: nat, x: nat)
    requires tile > 0
    ensures Start(k, tile) <= x < Start(k, tile) + tile <==> k == x / tile
  {
    Quotient(x, tile, k);
  }

  /** Every pixel belongs to exactly one tile. */
  lemma OneTileEach(w: nat, h: nat, tileWidth: nat, tileHeight: nat, n: nat, x: nat, y: nat)
    requires tileWidth > 0 && tileHeight > 0 && x < w && y < h
    ensures Covers(w, tileWidth, tileHeight, n, x, y) <==>
            n == Offset(x / tileWidth, y / tileHeight, Across(w, tileWidth))
    ensures Offset(x / tileWidth, y / tileHeight, Across(w, tileWidth)) <
            Across(h, tileHeight) * Across(w, tileWidth)
  {
    hide Across, Start, Offset;
    var columns := Across(w, tileWidth);
    InGrid(w, tileWidth, x);
    InGrid(h, tileHeight, y);
    InStep(n % columns, tileWidth, x);
    InStep(n / columns, tileHeight, y);
    OffsetIsUnique(x / tileWidth, y / tileHeight, columns, Across(h, tileHeight), n);
  }

  lemma OffsetIsUnique(x: nat, y: nat, w: nat, h: nat, n: nat)
    requires x < w && y < h
    ensures n == Offset(x, y, w) <==> n % w == x && n / w == y
    ensures Offset(x, y, w) < h * w
  {
    CellInside(x, y, w, h);
    Cell(x, y, w);
  }

  lemma InGrid(size: nat, tile: nat, x: nat)
    requires tile > 0 && x < size
    ensures 0 <= x / tile < Across(size, tile)
  {
    Quotient(x, tile, x / tile);
    StepsAcross(size, tile, x / tile);
  }

  /** `out` shows a pixel of the n-th tile where it belongs. */
  predicate InPlace(out: Raster, tile: Raster, tileWidth: nat, tileHeight: nat, n: nat, i: nat, j: nat)
    requires out.Valid() && tileWidth > 0 && i < tile.width && j < tile.height
  {
    var columns := Across(out.width, tileWidth);
    columns > 0 && tile.Valid() &&
    var x, y := Start(n % columns, tileWidth) + i, Start(n / columns, tileHeight) + j;
    x < out.width && y < out.height && out.At(x, y) == tile.At(i, j)
  }

  /** `out` holds every tile at its place. */
  ghost predicate Pasted(out: Raster, tiles: seq<Raster>, tileWidth: nat, tileHeight: nat)
    requires out.Valid() && tileWidth > 0
  {
    forall n: nat, i: nat, j: nat :: n < |tiles| && i < tiles[n].width && j < tiles[n].height ==>
      InPlace(out, tiles[n], tileWidth, tileHeight, n, i, j)
  }

  /** Pasting the tiles back in row-major order rebuilds the image. */
  lemma PastingRebuilds(image: Raster, tiles: seq<Raster>, tileWidth: nat, tileHeight: nat, out: Raster)
    requires image.Valid() && out.Valid() && out.width == image.width && out.height == image.height
    requires tileWidth > 0 && tileHeight > 0 && AreTiles(image, tileWidth, tileHeight, tiles)
    requires |tiles| == Across(image.height, tileHeight) * Across(image.width, tileWidth)
    requires Pasted(out, tiles, tileWidth, tileHeight)
    ensures out == image
  {
    hide Across, Tile, AreTiles, Pasted, Raster.At;
    forall x: nat, y: nat | x < image.width && y < image.height ensures out.At(x, y) == image.At(x, y) {
      PastedPixel(image, tiles, tileWidth, tileHeight, out, x, y);
    }
    SamePixelsSameImage(out, image);
  }

  lemma SamePixelsSameImage(a: Raster, b: Raster)
    requires a.Valid() && b.Valid() && a.width == b.width && a.height == b.height
    requires forall x: nat, y: nat :: x < a.width && y < a.height ==> a.At(x, y) == b.At(x, y)
    ensures a == b
  {
    forall k: nat | k < |a.pixels| ensures a.pixels[k] == b.pixels[k] {
      CellOf(k, a.width, a.height);
      assert a.At(k % a.width, k / a.width) == b.At(k % a.width, k / a.width);
    }
  }

  lemma PastedPixel(image: Raster, tiles: seq<Raster>, tileWidth: nat, tileHeight: nat, out: Raster, x: nat, y: nat)
    requires image.Valid() && out.Valid() && out.width == image.width && out.height == image.height
    requires tileWidth > 0 && tileHeight > 0 && AreTiles(image, tileWidth, tileHeight, tiles)
    requires |tiles| == Across(image.height, tileHeight) * Across(image.width, tileWidth)
    requires Pasted(out, tiles, tileWidth, tileHeight) && x < image.width && y < image.height
    ensures out.At(x, y) == image.At(x, y)
  {
    hide Across, Start, Part, Offset, Raster.At, Raster.Valid;
    var columns := Across(image.width, tileWidth);
    var n := Offset(x / tileWidth, y / tileHeight, columns);
    OneTileEach(image.width, image.height, tileWidth, tileHeight, n, x, y);
    assert IsTile(image, tileWidth, tileHeight, n, tiles[n]);
    var left, top := Start(n % columns, tileWidth), Start(n / columns, tileHeight);
    TileShows(image, left, top, tileWidth, tileHeight, x - left, y - top);
    assert InPlace(out, tiles[n], tileWidth, tileHeight, n, x - left, y - top);
  }

  /** The image itself holds every one of its tiles at its place. */
  lemma ImageIsPasted(image: Raster, tiles: seq<Raster>, tileWidth: nat, tileHeight: nat)
    requires image.Valid() && tileWidth > 0 && AreTiles(image, tileWidth, tileHeight, tiles)
    ensures Pasted(image, tiles, tileWidth, tileHeight)
  {
    hide Across, Start, Part, Raster.At, Raster.Valid;
    forall n: nat, i: nat, j: nat | n < |tiles| && i < tiles[n].width && j < tiles[n].height
      ensures InPlace(image, tiles[n], tileWidth, tileHeight, n, i, j)
    {
      assert IsTile(image, tileWidth, tileHeight, n, tiles[n]);
      var columns := Across(image.width, tileWidth);
      TileShows(image, Start(n % columns, tileWidth), Start(n / columns, tileHeight), tileWidth, tileHeight, i, j);
    }
  }
}
