// gl/GLPicture.java: a bitmap shown as a grid of GL textures no larger than the
// GL context's maximum texture size.  loadTexture cuts the bitmap into tiles and
// loads each through the texture manager; releaseTexture hands every tile's name
// back; suspend/resume release and reload from the retained copy of the bitmap;
// draw picks the shader from the alpha mode and binds every tile in order.

module Picture {
  import opened JavaText
  import TextureManager

  /** android.graphics.Rect, edges in pixels. */
  datatype Rect = Rect(left: int, top: int, right: int, bottom: int)

  /** Rect.offset. */
  function Offset(r: Rect, dx: int, dy: int): Rect
  {
    Rect(r.left + dx, r.top + dy, r.right + dx, r.bottom + dy)
  }

  /** Rect.intersect(l, t, r, b): clip to the other rectangle when the two overlap;
      otherwise the rectangle is left as it was (and false returned, which the
      caller ignores). */
  function Intersect(r: Rect, l: int, t: int, rt: int, b: int): (c: Rect)
    ensures r.left < rt && l < r.right && r.top < b && t < r.bottom ==>
      c.left == (if r.left < l then l else r.left) && c.right == (if r.right > rt then rt else r.right)
      && c.top == (if r.top < t then t else r.top) && c.bottom == (if r.bottom > b then b else r.bottom)
    ensures !(r.left < rt && l < r.right && r.top < b && t < r.bottom) ==> c == r
  {
    if r.left < rt && l < r.right && r.top < b && t < r.bottom then
      Rect(if r.left < l then l else r.left, if r.top < t then t else r.top,
           if r.right > rt then rt else r.right, if r.bottom > b then b else r.bottom)
    else r
  }

  /** The tile grid as loadTexture computes it, with the texture size T. */
  function Cols(width: int, tile: int): int
    requires width >= 0 && tile >= 1
  {
    width / (tile + 1) + 1
  }

  function Rows(height: int, tile: int): int
    requires height >= 0 && tile >= 1
  {
    height / (tile + 1) + 1
  }

  /** The part of the bitmap loaded into the tile in column x and row y (row 0 at
      the bottom): a T-square, moved so that only the top row is a partial tile,
      then clipped to the bitmap. */
  function TileRect(x: int, y: int, rows: int, tile: int, width: int, height: int): Rect
    requires tile >= 1
  {
    var r := Rect(x * tile, (rows - y - 1) * tile, (x + 1) * tile, (rows - y) * tile);
    var leftover := height % tile;
    var s := if leftover > 0 then Offset(r, 0, -tile + leftover) else r;
    Intersect(s, 0, 0, width, height)
  }

  /** One row of the grid, left to right. */
  function RowPlan(y: int, cols: int, rows: int, tile: int, width: int, height: int): (row: seq<Rect>)
    requires tile >= 1 && cols >= 0
    ensures |row| == cols
  {
    seq(cols, x => TileRect(x, y, rows, tile, width, height))
  }

  /** Rows y.. of the grid, bottom row first. */
  function Grid(y: int, cols: int, rows: int, tile: int, width: int, height: int): (g: seq<Rect>)
    requires tile >= 1 && cols >= 0 && 0 <= y <= rows
    ensures |g| == (rows - y) * cols
    decreases rows - y
  {
    if y == rows then []
    else
      var g := RowPlan(y, cols, rows, tile, width, height) + Grid(y + 1, cols, rows, tile, width, height);
      assert (rows - y) * cols == cols + (rows - y - 1) * cols;
      g
  }

  /** The sub-bitmaps loadTexture uploads, in the order of the handle array:
      the whole bitmap when the grid is 1 by 1, else the grid row by row. */
  function TilePlan(width: int, height: int, tile: int): (plan: seq<Rect>)
    requires width >= 0 && height >= 0 && tile >= 1
    ensures |plan| == Cols(width, tile) * Rows(height, tile)
  {
    var cols := Cols(width, tile);
    var rows := Rows(height, tile);
    if cols == 1 && rows == 1 then [Rect(0, 0, width, height)]
    else Grid(0, cols, rows, tile, width, height)
  }

  lemma MulLe(a: int, b: int, m: int)
    requires 0 <= a <= b && m >= 0
    ensures a * m <= b * m
  {
  }

  /** k <= n / (T + 1) gives k * T < n for n > 0. */
  lemma BelowQuotient(k: int, n: int, tile: int)
    requires tile >= 1 && n >= 1 && 0 <= k <= n / (tile + 1)
    ensures k * tile < n && k * (tile + 1) <= n
  {
    var q := n / (tile + 1);
    assert q * (tile + 1) <= n;
    MulLe(k, q, tile + 1);
    assert k * (tile + 1) == k * tile + k;
  }

  /** Every tile is a non-empty part of the bitmap no larger than a texture, so
      Bitmap.createBitmap never fails on it. */
  lemma TileInside(x: int, y: int, tile: int, width: int, height: int)
    requires tile >= 1 && width >= 1 && height >= 1
    requires 0 <= x < Cols(width, tile) && 0 <= y < Rows(height, tile)
    ensures var r := TileRect(x, y, Rows(height, tile), tile, width, height);
      0 <= r.left < r.right <= width && 0 <= r.top < r.bottom <= height
      && r.right - r.left <= tile && r.bottom - r.top <= tile
  {
    var rows := Rows(height, tile);
    var k := rows - y - 1;
    BelowQuotient(x, width, tile);
    BelowQuotient(k, height, tile);
    assert (x + 1) * tile == x * tile + tile;
    assert (k + 1) * tile == k * tile + tile;
    assert (rows - y) * tile == (k + 1) * tile;
  }

  /** The grid is a single tile exactly when the bitmap fits one texture. */
  lemma SingleTileIff(width: int, height: int, tile: int)
    requires width >= 0 && height >= 0 && tile >= 1
    ensures (Cols(width, tile) == 1 && Rows(height, tile) == 1) <==> (width <= tile && height <= tile)
    ensures Cols(width, tile) == 1 && Rows(height, tile) == 1 ==>
      TilePlan(width, height, tile) == [Rect(0, 0, width, height)]
  {
    if width > tile {
      assert width / (tile + 1) >= 1;
    }
    if height > tile {
      assert height / (tile + 1) >= 1;
    }
  }

  /** Rows y.. of a grid whose cell in column x and row y is cell(x, y), bottom
      row first. */
  function Cells(y: int, cols: int, rows: int, cell: (int, int) -> Rect): (g: seq<Rect>)
    requires cols >= 0 && y <= rows
    ensures |g| == (rows - y) * cols
    decreases rows - y
  {
    if y == rows then []
    else
      var g := seq(cols, x => cell(x, y)) + Cells(y + 1, cols, rows, cell);
      assert (rows - y) * cols == cols + (rows - y - 1) * cols;
      g
  }

  /** In rows k.., cell (x, k + d) sits at index d * cols + x. */
  lemma {:induction false} CellsAt(k: int, d: nat, x: int, cols: int, rows: int, cell: (int, int) -> Rect)
    requires k + d < rows && 0 <= x < cols
    ensures d * cols + x < |Cells(k, cols, rows, cell)|
    ensures Cells(k, cols, rows, cell)[d * cols + x] == cell(x, k + d)
    decreases d
  {
    var g := Cells(k, cols, rows, cell);
    var row := seq(cols, x => cell(x, k));
    var rest := Cells(k + 1, cols, rows, cell);
    assert g == row + rest;
    IndexInGrid(d, x, cols, rows - k);
    if d == 0 {
      assert g[x] == row[x];
    } else {
      CellsAt(k + 1, d - 1, x, cols, rows, cell);
      var i := (d - 1) * cols + x;
      RowShift(d, cols);
      assert g[cols + i] == rest[i];
    }
  }

  /** The tile grid is the grid of the tile rectangles. */
  lemma {:induction false} GridIsCells(y: int, cols: int, rows: int, tile: int, width: int, height: int,
                                       cell: (int, int) -> Rect)
    requires tile >= 1 && cols >= 0 && 0 <= y <= rows
    requires forall i, j :: cell(i, j) == TileRect(i, j, rows, tile, width, height)
    ensures Grid(y, cols, rows, tile, width, height) == Cells(y, cols, rows, cell)
    decreases rows - y
  {
    if y < rows {
      GridIsCells(y + 1, cols, rows, tile, width, height, cell);
      assert RowPlan(y, cols, rows, tile, width, height) == seq(cols, x => cell(x, y));
    }
  }

  /** In rows k.., tile (x, k + d) sits at index d * cols + x. */
  lemma GridAt(k: int, d: nat, x: int, cols: int, rows: int, tile: int, width: int, height: int)
    requires tile >= 1 && 0 <= k && k + d < rows && 0 <= x < cols
    ensures d * cols + x < |Grid(k, cols, rows, tile, width, height)|
    ensures Grid(k, cols, rows, tile, width, height)[d * cols + x] == TileRect(x, k + d, rows, tile, width, height)
  {
    var cell := (i, j) => TileRect(i, j, rows, tile, width, height);
    GridIsCells(k, cols, rows, tile, width, height, cell);
    CellsAt(k, d, x, cols, rows, cell);
  }

  /** Index d * cols + x lies in a grid of n rows of cols tiles. */
  lemma IndexInGrid(d: nat, x: int, cols: int, n: int)
    requires d < n && 0 <= x < cols
    ensures d * cols + x < n * cols
  {
    MulLe(d + 1, n, cols);
    assert (d + 1) * cols == d * cols + cols;
  }

  /** One row further down the grid is cols further in. */
  lemma RowShift(d: int, cols: int)
    ensures d * cols == cols + (d - 1) * cols
  {
  }

  /** The tile stored at index y * cols + x is tile (x, y). */
  lemma PlanAt(width: int, height: int, tile: int, x: int, y: int)
    requires width >= 0 && height >= 0 && tile >= 1
    requires !(Cols(width, tile) == 1 && Rows(height, tile) == 1)
    requires 0 <= x < Cols(width, tile) && 0 <= y < Rows(height, tile)
    ensures y * Cols(width, tile) + x < |TilePlan(width, height, tile)|
    ensures TilePlan(width, height, tile)[y * Cols(width, tile) + x]
            == TileRect(x, y, Rows(height, tile), tile, width, height)
  {
    GridAt(0, y, x, Cols(width, tile), Rows(height, tile), tile, width, height);
  }

  /** The grid does not always cover the bitmap: for width 2T+1 there are two
      columns, and the last pixel column is in neither. */
  lemma ColumnGap(tile: int, height: int, y: int)
    requires tile >= 1 && height >= 1 && 0 <= y < Rows(height, tile)
    ensures Cols(2 * tile + 1, tile) == 2
    ensures TileRect(0, y, Rows(height, tile), tile, 2 * tile + 1, height).right <= 2 * tile
    ensures TileRect(1, y, Rows(height, tile), tile, 2 * tile + 1, height).right <= 2 * tile
  {
    assert (2 * tile + 1) / (tile + 1) == 1;
    TileInside(0, y, tile, 2 * tile + 1, height);
    TileInside(1, y, tile, 2 * tile + 1, height);
  }

  // ------------------------------------------------------------ drawing

  datatype AlphaType = Image | Global

  /** The shader and the alpha value draw uses: a negative alpha forces IMAGE
      mode with its absolute value; IMAGE is shader 1, GLOBAL shader 0. */
  function AlphaMode(alphaType: AlphaType, alpha: real): (mode: (int, real))
    ensures alpha < 0.0 ==> mode == (1, -alpha)
    ensures alpha >= 0.0 ==> mode == (if alphaType == Image then (1, alpha) else (0, alpha))
  {
    var t := if alpha < 0.0 then Image else alphaType;
    if t == Image then (1, if alpha < 0.0 then -alpha else alpha) else (0, alpha)
  }

  /** The outcome of draw. */
  datatype Drawn =
    | NoContent
    | Failed
    | Tiles(shader: int, alpha: real, bound: seq<int>)

  /** A bitmap; only its size matters here. */
  datatype Bitmap = Bitmap(width: int, height: int)

  predicate Proper(b: Option<Bitmap>)
  {
    b.Some? ==> b.value.width >= 1 && b.value.height >= 1
  }

  class Picture {
    /** The texture manager; null when the picture was made from a null bitmap. */
    const manager: TextureManager.Manager?
    /** sMaxTextureSize, the GL context's GL_MAX_TEXTURE_SIZE. */
    const maxTextureSize: int

    var hasContent: bool
    var width: int
    var height: int
    var tileSize: int
    var cols: int
    var rows: int
    var textureHandles: array?<int>
    /** The retained copy of the bitmap. */
    var bitmap: Option<Bitmap>

    /** Every sub-bitmap loaded into a texture, in order. */
    ghost var uploads: seq<Rect>

    ghost predicate Valid()
      reads this, manager
    {
      maxTextureSize >= 1 && Proper(bitmap)
      && (manager != null ==> manager.Valid())
      && (bitmap.Some? ==> manager != null)
      && (textureHandles != null ==>
            manager != null && hasContent && tileSize == maxTextureSize
            && width >= 0 && height >= 0 && cols == Cols(width, tileSize) && rows == Rows(height, tileSize)
            && textureHandles.Length == cols * rows)
    }

    /** The grid the retained bitmap gives. */
    ghost predicate GeometryOf(b: Bitmap)
      reads this
    {
      maxTextureSize >= 1 && tileSize == maxTextureSize && width == b.width && height == b.height
      && b.width >= 0 && b.height >= 0 && cols == Cols(width, tileSize) && rows == Rows(height, tileSize)
    }

    constructor (manager: TextureManager.Manager?, b: Option<Bitmap>, maxTextureSize: int)
      requires maxTextureSize >= 1 && Proper(b)
      requires b.Some? ==> manager != null && manager.Valid()
      modifies manager
      ensures Valid() && bitmap == b
      ensures this.manager == (if b.Some? then manager else null)
      ensures b.None? ==> !hasContent && textureHandles == null && uploads == []
      ensures b.Some? ==> hasContent && GeometryOf(b.value) && textureHandles != null
      ensures b.Some? && !manager.debug ==>
        uploads == TilePlan(width, height, tileSize)
        && forall i :: 0 <= i < textureHandles.Length && textureHandles[i] != 0 ==> textureHandles[i] in manager.live
    {
      this.maxTextureSize := maxTextureSize;
      this.manager := if b.Some? then manager else null;
      hasContent, width, height, tileSize, cols, rows := false, 0, 0, 0, 1, 1;
      textureHandles := null;
      bitmap := None;
      uploads := [];
      new;
      if b.Some? {
        var _ := LoadTexture(b);
        bitmap := b;
      }
    }

    /** loadTexture; ok is false when it threw (a null bitmap, or a zero texture
        name in a debug build). */
    method LoadTexture(b: Option<Bitmap>) returns (ok: bool)
      requires Valid() && Proper(b) && (b.Some? ==> manager != null)
      modifies this, manager
      ensures Valid() && bitmap == old(bitmap)
      ensures old(hasContent) ==> ok && unchanged(this) && (manager != null ==> unchanged(manager))
      ensures hasContent
      ensures !old(hasContent) && b.Some? ==> GeometryOf(b.value) && textureHandles != null
      ensures !old(hasContent) && b.Some? && manager != null && !manager.debug ==>
        ok && uploads == old(uploads) + TilePlan(width, height, tileSize)
        && forall i :: 0 <= i < textureHandles.Length && textureHandles[i] != 0 ==> textureHandles[i] in manager.live
      ensures !old(hasContent) && b.None? ==> !ok
    {
      if hasContent {
        return true;
      }
      tileSize := maxTextureSize;
      hasContent := true;
      if b.None? {
        // bitmap.getWidth() on null
        return false;
      }
      ok := LoadBitmap(b.value);
    }

    /** The part of loadTexture after the null check: the grid, the handle array
        and the uploads. */
    method LoadBitmap(b: Bitmap) returns (ok: bool)
      requires manager != null && manager.Valid() && tileSize == maxTextureSize >= 1
      requires b.width >= 1 && b.height >= 1
      modifies this`width, this`height, this`cols, this`rows, this`textureHandles, this`uploads, manager
      ensures manager.Valid() && GeometryOf(b)
      ensures textureHandles != null && fresh(textureHandles) && textureHandles.Length == cols * rows
      ensures !manager.debug ==>
        ok && uploads == old(uploads) + TilePlan(width, height, tileSize)
        && forall i :: 0 <= i < textureHandles.Length && textureHandles[i] != 0 ==> textureHandles[i] in manager.live
    {
      width := b.width;
      height := b.height;
      cols := width / (tileSize + 1) + 1;
      rows := height / (tileSize + 1) + 1;
      textureHandles := new int[cols * rows];
      if cols == 1 && rows == 1 {
        ok := LoadWhole();
      } else {
        ok := LoadTiles();
      }
    }

    /** A bitmap that fits one texture is uploaded whole into handle 0. */
    method LoadWhole() returns (ok: bool)
      requires manager != null && manager.Valid() && textureHandles != null && textureHandles.Length == 1
      modifies textureHandles, manager, this`uploads
      ensures manager.Valid()
      ensures uploads == old(uploads) + [Rect(0, 0, width, height)]
      ensures !manager.debug ==> ok
      ensures ok ==> textureHandles[0] != 0 ==> textureHandles[0] in manager.live
    {
      var h, thrown := manager.LoadTexture();
      uploads := uploads + [Rect(0, 0, width, height)];
      if thrown {
        return false;
      }
      textureHandles[0] := h;
      ok := true;
    }

    /** The nested loops over rows and columns of loadTexture. */
    method LoadTiles() returns (ok: bool)
      requires manager != null && manager.Valid() && textureHandles != null
      requires tileSize >= 1 && cols >= 0 && rows >= 0 && textureHandles.Length == cols * rows
      modifies textureHandles, manager, this`uploads
      ensures manager.Valid()
      ensures !manager.debug ==> ok
      ensures ok ==> uploads == old(uploads) + Grid(0, cols, rows, tileSize, width, height)
      ensures ok ==> forall i :: 0 <= i < textureHandles.Length && textureHandles[i] != 0 ==>
        textureHandles[i] in manager.live
    {
      ghost var base := uploads;
      var y := 0;
      while y < rows
        invariant 0 <= y <= rows
        invariant manager.Valid()
        invariant uploads + Grid(y, cols, rows, tileSize, width, height)
                  == base + Grid(0, cols, rows, tileSize, width, height)
        invariant forall j :: 0 <= j < y * cols && textureHandles[j] != 0 ==> textureHandles[j] in manager.live
      {
        MulLe(y + 1, rows, cols);
        ghost var before := uploads;
        ok := LoadRow(y);
        if !ok {
          return;
        }
        assert uploads + Grid(y + 1, cols, rows, tileSize, width, height)
               == before + Grid(y, cols, rows, tileSize, width, height);
        y := y + 1;
      }
      assert uploads == base + Grid(0, cols, rows, tileSize, width, height);
      ok := true;
    }

    /** One row of tiles, left to right, at indices y * cols .. y * cols + cols - 1. */
    method LoadRow(y: int) returns (ok: bool)
      requires textureHandles != null && manager != null && manager.Valid()
      requires tileSize >= 1 && 0 <= y && cols >= 0 && (y + 1) * cols <= textureHandles.Length
      requires forall j :: 0 <= j < y * cols && textureHandles[j] != 0 ==> textureHandles[j] in manager.live
      modifies textureHandles, manager, this`uploads
      ensures manager.Valid()
      ensures !manager.debug ==> ok
      ensures ok ==> uploads == old(uploads) + RowPlan(y, cols, rows, tileSize, width, height)
      ensures ok ==> forall j :: 0 <= j < (y + 1) * cols && textureHandles[j] != 0 ==>
        textureHandles[j] in manager.live
    {
      ghost var row := RowPlan(y, cols, rows, tileSize, width, height);
      assert (y + 1) * cols == y * cols + cols;
      var x := 0;
      while x < cols
        invariant 0 <= x <= cols
        invariant manager.Valid()
        invariant uploads == old(uploads) + row[..x]
        invariant forall j :: 0 <= j < y * cols + x && textureHandles[j] != 0 ==> textureHandles[j] in manager.live
      {
        var h, thrown := manager.LoadTexture();
        uploads := uploads + [TileRect(x, y, rows, tileSize, width, height)];
        assert row[..x + 1] == row[..x] + [row[x]];
        if thrown {
          return false;
        }
        textureHandles[y * cols + x] := h;
        x := x + 1;
      }
      assert row[..x] == row;
      ok := true;
    }

    /** releaseTexture: every tile's name goes back to the manager, once each and
        in index order. */
    method ReleaseTexture()
      requires Valid()
      modifies this, manager
      ensures Valid() && bitmap == old(bitmap) && uploads == old(uploads)
      ensures old(hasContent) && old(textureHandles) != null ==>
        !hasContent && textureHandles == null
        && manager.handles == old(manager.handles) + old(textureHandles[..])
        && manager.live == old(manager.live) - TextureManager.Names(old(textureHandles[..]))
      ensures !(old(hasContent) && old(textureHandles) != null) ==> unchanged(this) && (manager != null ==> unchanged(manager))
    {
      if !hasContent {
        return;
      }
      var handles := textureHandles;
      if handles != null {
        var i := 0;
        while i < handles.Length
          invariant 0 <= i <= handles.Length
          invariant unchanged(this) && manager.Valid()
          invariant manager.handles == old(manager.handles) + handles[..i]
          invariant manager.live == old(manager.live) - TextureManager.Names(handles[..i])
        {
          manager.ReleaseTextureHandle(handles[i]);
          assert handles[..i + 1] == handles[..i] + [handles[i]];
          assert TextureManager.Names(handles[..i + 1]) == TextureManager.Names(handles[..i]) + {handles[i]};
          i := i + 1;
        }
        assert handles[..i] == handles[..];
        textureHandles := null;
        hasContent := false;
      }
    }

    /** suspend: the textures go back to the manager, and the retained copy stays
        for resume. */
    method Suspend()
      requires Valid()
      modifies this, manager
      ensures Valid() && bitmap == old(bitmap) && uploads == old(uploads)
      ensures old(hasContent) && old(textureHandles) != null ==>
        !hasContent && textureHandles == null
        && manager.handles == old(manager.handles) + old(textureHandles[..])
        && manager.live == old(manager.live) - TextureManager.Names(old(textureHandles[..]))
      ensures !(old(hasContent) && old(textureHandles) != null) ==> unchanged(this) && (manager != null ==> unchanged(manager))
    {
      ReleaseTexture();
    }

    /** resume: reload from the retained copy, which gives the grid it had. */
    method Resume() returns (ok: bool)
      requires Valid()
      modifies this, manager
      ensures Valid() && bitmap == old(bitmap)
      ensures hasContent
      ensures old(hasContent) ==> ok && unchanged(this)
      ensures !old(hasContent) && bitmap.Some? ==> GeometryOf(bitmap.value) && textureHandles != null
      ensures !old(hasContent) && bitmap.Some? && !manager.debug ==>
        ok && uploads == old(uploads) + TilePlan(width, height, tileSize)
      ensures !old(hasContent) && bitmap.None? ==> !ok
    {
      ok := LoadTexture(bitmap);
    }

    /** destroy: drop the retained copy, then release the textures. */
    method Destroy()
      requires Valid()
      modifies this, manager
      ensures Valid() && bitmap.None? && uploads == old(uploads)
      ensures old(hasContent) && old(textureHandles) != null ==>
        !hasContent && textureHandles == null
        && manager.handles == old(manager.handles) + old(textureHandles[..])
        && manager.live == old(manager.live) - TextureManager.Names(old(textureHandles[..]))
      ensures !(old(hasContent) && old(textureHandles) != null) ==>
        hasContent == old(hasContent) && textureHandles == old(textureHandles)
        && (manager != null ==> unchanged(manager))
    {
      bitmap := None;
      ReleaseTexture();
    }

    /** draw: resume first; nothing is drawn without content; otherwise every tile
        is bound, in index order, with the chosen shader. */
    method Draw(alphaType: AlphaType, alpha: real) returns (d: Drawn)
      requires Valid()
      modifies this, manager
      ensures Valid()
      ensures hasContent && !d.NoContent?
      ensures d.Tiles? ==> textureHandles != null && d.bound == textureHandles[..]
      ensures d.Tiles? ==> (d.shader, d.alpha) == AlphaMode(alphaType, alpha)
      ensures old(hasContent) && old(textureHandles) != null ==> d.Tiles? && d.bound == old(textureHandles[..])
      ensures !old(hasContent) && old(bitmap).Some? && !manager.debug ==> d.Tiles?
    {
      var ok := Resume();
      if !ok {
        return Failed;
      }
      if !hasContent {
        return NoContent;
      }
      if textureHandles == null {
        // the tile loop dereferences the missing handle array
        return Failed;
      }
      var mode := AlphaMode(alphaType, alpha);
      d := Tiles(mode.0, mode.1, textureHandles[..]);
    }
  }
}
