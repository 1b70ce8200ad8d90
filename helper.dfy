/**
 * The compositing helpers of owallpaperd: turning a mode name into a
 * placement mode, the destination rectangles each mode blends the source
 * image onto, the split of the background colour into channels, and the
 * error propagation of `create_wallpaper`.
 *
 * Imlib2 is not modelled pixel by pixel: a call to
 * `imlib_blend_image_onto_image` becomes a `Blend` value recording its source
 * and destination rectangles, in call order.
 */
module Helper {
  import opened Wrappers

  /** errno values (Linux) returned by `render_wallpaper`. */
  const EINVAL: int := 22
  const ENOSYS: int := 38

  /** A positive extent, as Imlib2 reports for every image it has decoded. */
  type Pos = x: int | x > 0 witness 1

  /** An X resource id handed out by the server: never 0 (`None`). */
  type Xid = x: int | x > 0 witness 1

  /** A pixmap slot: 0 means "no pixmap". */
  type Pixmap = nat

  /** The rendering modes of `WallpaperMode`, in declaration order. */
  datatype WallpaperMode = ModeNone | Center | Fill | Full | Tile

  /** The name of every real mode, as `wallpaper_mode_from_string` spells it. */
  function ModeName(m: WallpaperMode): string
    requires m != ModeNone
  {
    match m
    case Center => "center"
    case Fill => "fill"
    case Full => "full"
    case Tile => "tile"
  }

  /** The only strings that name a mode. */
  const ModeNames: set<string> := {"center", "fill", "full", "tile"}

  /**
   * `wallpaper_mode_from_string`: an absent string means Full; otherwise the
   * string must be exactly one of the four names (a byte-wise `strcmp`, so no
   * case folding and no trimming).
   */
  function ModeFromString(s: Option<string>): (m: WallpaperMode)
    ensures s.None? ==> m == Full
    ensures s.Some? ==> (m != ModeNone <==> s.value in ModeNames)
    ensures s.Some? && m != ModeNone ==> ModeName(m) == s.value
  {
    if s.None? then Full
    else if s.value == "center" then Center
    else if s.value == "fill" then Fill
    else if s.value == "full" then Full
    else if s.value == "tile" then Tile
    else ModeNone
  }

  /** Reading back the name of a mode gives the mode. */
  lemma ModeNameRoundTrip(m: WallpaperMode)
    requires m != ModeNone
    ensures ModeFromString(Some(ModeName(m))) == m
  {
  }

  /** The match is exact: the empty string and a capitalised name are rejected. */
  lemma ModeMatchIsExact()
    ensures ModeFromString(Some("")) == ModeNone
    ensures ModeFromString(Some("Center")) == ModeNone
    ensures ModeFromString(Some("tile ")) == ModeNone
  {
  }

  // ---------------------------------------------------------------------
  // Geometry

  /** A decoded source image: only its size matters for placement. */
  datatype Image = Image(width: Pos, height: Pos)

  datatype Rect = Rect(x: int, y: int, w: int, h: int)

  /** One `imlib_blend_image_onto_image` call: source and destination rectangles. */
  datatype Blend = Blend(src: Rect, dst: Rect)

  /** The whole source image, the source rectangle every mode blends from. */
  function Whole(img: Image): Rect
  {
    Rect(0, 0, img.width, img.height)
  }

  /** A native-size copy of `img` with its top-left corner at (x, y). */
  function TileAt(img: Image, x: int, y: int): Blend
  {
    Blend(Whole(img), Rect(x, y, img.width, img.height))
  }

  /**
   * Halving toward zero over mathematical integers: what `(root - image) / 2`
   * computes when the difference is not taken as unsigned (the C operands
   * are `unsigned int` and `int`; the model does not emulate the wrap).
   */
  function CHalf(d: int): (r: int)
    ensures d >= 0 ==> 0 <= r && 2 * r <= d < 2 * r + 2
    ensures d < 0 ==> r <= 0 && 2 * r - 2 < d <= 2 * r
  {
    if d >= 0 then d / 2 else -((-d) / 2)
  }

  /** The value `while (v > 0) v -= step;` leaves in `v`. */
  function WalkBack(start: int, step: Pos): (v: int)
    ensures v <= 0
    ensures start <= 0 ==> v == start
    decreases if start > 0 then start else 0
  {
    if start > 0 then WalkBack(start - step, step) else start
  }

  /**
   * The walk-back moves by whole steps: its result is `start` minus a
   * multiple of `step`, so it keeps the tile grid aligned with `start`.
   */
  lemma {:induction false} WalkBackSteps(start: int, step: Pos) returns (k: nat)
    ensures WalkBack(start, step) == start - k * step
    decreases if start > 0 then start else 0
  {
    if start > 0 {
      var k' := WalkBackSteps(start - step, step);
      k := k' + 1;
    } else {
      k := 0;
    }
  }

  /** Started above `-step`, the walk-back ends in (-step, 0]. */
  lemma {:induction false} WalkBackBounds(start: int, step: Pos)
    requires start + step > 0
    ensures WalkBack(start, step) + step > 0 && WalkBack(start, step) <= 0
    decreases if start > 0 then start else 0
  {
    if start > 0 {
      WalkBackBounds(start - step, step);
    }
  }

  /** `x + j * step`: the j-th grid line after `x`. */
  function Offset(x: int, j: nat, step: Pos): int
  {
    x + j * step
  }

  /** Starting one step later shifts every grid line by one. */
  lemma OffsetShift(x: int, j: nat, step: Pos)
    ensures Offset(x + step, j, step) == Offset(x, j + 1, step)
  {
  }

  /**
   * The blends of the inner loop `for (y = top; y < root_height; y += h)`
   * for the column at `x`.
   */
  function TileColumn(img: Image, x: int, y: int, ch: int): (column: seq<Blend>)
    decreases ch - y
  {
    if y < ch then [TileAt(img, x, y)] + TileColumn(img, x, y + img.height, ch) else []
  }

  /** The blends of the outer loop `for (x = left; x < root_width; x += w)`. */
  function TileGrid(img: Image, x: int, top: int, cw: int, ch: int): (grid: seq<Blend>)
    decreases cw - x
  {
    if x < cw then TileColumn(img, x, top, ch) + TileGrid(img, x + img.width, top, cw, ch) else []
  }

  /** A column is empty exactly when its first row is already past the canvas edge. */
  lemma ColumnEmpty(img: Image, x: int, y: int, ch: int)
    ensures |TileColumn(img, x, y, ch)| == 0 <==> y >= ch
  {
  }

  /** The grid is empty exactly when its first column or first row is past an edge. */
  lemma {:induction false} GridEmpty(img: Image, x: int, top: int, cw: int, ch: int)
    ensures |TileGrid(img, x, top, cw, ch)| == 0 <==> x >= cw || top >= ch
    decreases cw - x
  {
    if x < cw {
      ColumnEmpty(img, x, top, ch);
      GridEmpty(img, x + img.width, top, cw, ch);
    }
  }

  /** Every blend of a column is a native-size copy on a grid row below `ch`. */
  lemma {:induction false} ColumnSound(img: Image, x: int, y: int, ch: int, b: Blend) returns (j: nat)
    requires b in TileColumn(img, x, y, ch)
    ensures b == TileAt(img, x, Offset(y, j, img.height)) && Offset(y, j, img.height) < ch
    decreases ch - y
  {
    if b == TileAt(img, x, y) {
      j := 0;
    } else {
      var j' := ColumnSound(img, x, y + img.height, ch, b);
      j := j' + 1;
    }
  }

  /** Every grid row of a column that starts below `ch` is blended. */
  lemma {:induction false} ColumnComplete(img: Image, x: int, y: int, ch: int, j: nat)
    requires Offset(y, j, img.height) < ch
    ensures TileAt(img, x, Offset(y, j, img.height)) in TileColumn(img, x, y, ch)
    decreases j
  {
    if j > 0 {
      OffsetShift(y, j - 1, img.height);
      ColumnComplete(img, x, y + img.height, ch, j - 1);
    }
  }

  /** A blend of the grid is in its first column or in the grid to the right of it. */
  lemma GridSplit(img: Image, x: int, top: int, cw: int, ch: int, b: Blend)
    requires b in TileGrid(img, x, top, cw, ch)
    ensures x < cw
    ensures b in TileColumn(img, x, top, ch) || b in TileGrid(img, x + img.width, top, cw, ch)
  {
  }

  /** Every blend of the grid is a native-size copy at a grid corner inside the canvas bounds. */
  lemma {:induction false} GridSound(img: Image, x: int, top: int, cw: int, ch: int, b: Blend)
    returns (i: nat, j: nat)
    requires b in TileGrid(img, x, top, cw, ch)
    ensures b == TileAt(img, Offset(x, i, img.width), Offset(top, j, img.height))
    ensures Offset(x, i, img.width) < cw && Offset(top, j, img.height) < ch
    decreases cw - x
  {
    GridSplit(img, x, top, cw, ch, b);
    if b in TileColumn(img, x, top, ch) {
      i := 0;
      j := ColumnSound(img, x, top, ch, b);
    } else {
      var i', j' := GridSound(img, x + img.width, top, cw, ch, b);
      i, j := i' + 1, j';
      OffsetShift(x, i', img.width);
    }
  }

  /** Every grid corner inside the canvas bounds gets a copy. */
  lemma {:induction false} GridComplete(img: Image, x: int, top: int, cw: int, ch: int, i: nat, j: nat)
    requires Offset(x, i, img.width) < cw && Offset(top, j, img.height) < ch
    ensures TileAt(img, Offset(x, i, img.width), Offset(top, j, img.height)) in TileGrid(img, x, top, cw, ch)
    decreases i
  {
    if i == 0 {
      ColumnComplete(img, x, top, ch, j);
    } else {
      OffsetShift(x, i - 1, img.width);
      GridComplete(img, x + img.width, top, cw, ch, i - 1, j);
    }
  }

  /** The grid origin of tile mode on one axis: centred, then walked back. */
  function TileOrigin(canvas: nat, image: Pos): int
  {
    WalkBack(CHalf(canvas - image), image)
  }

  /** The blends of tile mode for an image on a `cw` x `ch` canvas. */
  function TileBlends(img: Image, cw: nat, ch: nat): seq<Blend>
  {
    TileGrid(img, TileOrigin(cw, img.width), TileOrigin(ch, img.height), cw, ch)
  }

  /**
   * The tile origin lies in (-image, 0] and differs from the centred offset
   * `(canvas - image) / 2` by a whole number of image extents.
   */
  lemma TileOriginAligned(canvas: nat, image: Pos) returns (k: nat)
    ensures TileOrigin(canvas, image) + image > 0 && TileOrigin(canvas, image) <= 0
    ensures TileOrigin(canvas, image) == CHalf(canvas - image) - k * image
  {
    WalkBackBounds(CHalf(canvas - image), image);
    k := WalkBackSteps(CHalf(canvas - image), image);
  }

  /** A point of the canvas lies in the destination of a blend. */
  predicate Covers(b: Blend, px: int, py: int)
  {
    b.dst.x <= px < b.dst.x + b.dst.w && b.dst.y <= py < b.dst.y + b.dst.h
  }

  /** A grid that starts at or before the origin covers the whole canvas. */
  lemma GridCovers(img: Image, left: int, top: int, cw: int, ch: int, px: int, py: int)
    returns (b: Blend)
    requires left <= 0 && top <= 0
    requires 0 <= px < cw && 0 <= py < ch
    ensures b in TileGrid(img, left, top, cw, ch) && Covers(b, px, py)
  {
    var i: nat := (px - left) / img.width;
    var j: nat := (py - top) / img.height;
    assert Offset(left, i, img.width) <= px < Offset(left, i, img.width) + img.width;
    assert Offset(top, j, img.height) <= py < Offset(top, j, img.height) + img.height;
    GridComplete(img, left, top, cw, ch, i, j);
    b := TileAt(img, Offset(left, i, img.width), Offset(top, j, img.height));
  }

  /**
   * Tile mode covers the canvas: every pixel of [0, cw) x [0, ch) lies in
   * some blended copy.
   */
  lemma TileCoversCanvas(img: Image, cw: nat, ch: nat, px: int, py: int) returns (b: Blend)
    requires 0 <= px < cw && 0 <= py < ch
    ensures b in TileBlends(img, cw, ch) && Covers(b, px, py)
  {
    var _ := TileOriginAligned(cw, img.width);
    var _ := TileOriginAligned(ch, img.height);
    b := GridCovers(img, TileOrigin(cw, img.width), TileOrigin(ch, img.height), cw, ch, px, py);
  }

  /**
   * The blends of tile mode are exactly the native-size copies at the grid
   * corners (left + i * w, top + j * h) that lie before the far canvas edges,
   * and each of them overlaps the canvas.
   */
  lemma TileBlendsExact(img: Image, cw: nat, ch: nat, b: Blend)
    ensures b in TileBlends(img, cw, ch) <==>
      exists i: nat, j: nat ::
        && Offset(TileOrigin(cw, img.width), i, img.width) < cw
        && Offset(TileOrigin(ch, img.height), j, img.height) < ch
        && b == TileAt(img, Offset(TileOrigin(cw, img.width), i, img.width),
                            Offset(TileOrigin(ch, img.height), j, img.height))
    ensures b in TileBlends(img, cw, ch) ==>
      b.src == Whole(img) && b.dst.x + b.dst.w > 0 && b.dst.y + b.dst.h > 0
  {
    var left, top := TileOrigin(cw, img.width), TileOrigin(ch, img.height);
    var _ := TileOriginAligned(cw, img.width);
    var _ := TileOriginAligned(ch, img.height);
    if b in TileBlends(img, cw, ch) {
      var i, j := GridSound(img, left, top, cw, ch, b);
      assert Offset(left, i, img.width) >= left && Offset(top, j, img.height) >= top;
    }
    forall i: nat, j: nat |
      && Offset(left, i, img.width) < cw
      && Offset(top, j, img.height) < ch
      ensures TileAt(img, Offset(left, i, img.width), Offset(top, j, img.height)) in TileBlends(img, cw, ch)
    {
      GridComplete(img, left, top, cw, ch, i, j);
    }
  }

  /**
   * The loop tests `x < root_width` and `y < root_height` as the C code
   * writes them: the `int` coordinate is compared with an `unsigned int`
   * extent, so it is converted to unsigned first and a negative coordinate
   * compares as 2^32 plus itself.
   */
  predicate BelowAsWritten(v: int, extent: nat)
    requires -0x8000_0000 <= v < 0x8000_0000
  {
    (if v < 0 then v + 0x1_0000_0000 else v) < extent
  }

  /**
   * A 30 x 30 image on a 100 x 100 canvas: the walked-back origin is -25 on
   * both axes, which the unsigned test rejects, so the C loops blend
   * nothing; yet -25 lies before the canvas edge, and the grid the model
   * uses starts with a copy at (-25, -25).
   */
  lemma NegativeTileOriginDrawsNothing()
    ensures TileOrigin(100, 30) == -25
    ensures !BelowAsWritten(TileOrigin(100, 30), 100) && TileOrigin(100, 30) < 100
    ensures TileBlends(Image(30, 30), 100, 100)[0] == TileAt(Image(30, 30), -25, -25)
  {
    assert CHalf(70) == 35;
    assert WalkBack(35, 30) == WalkBack(5, 30) == WalkBack(-25, 30) == -25;
  }

  // ---------------------------------------------------------------------
  // render_wallpaper

  /** What `render_wallpaper` returns and draws: its error code and its blends. */
  datatype Rendered = Rendered(error: int, blends: seq<Blend>)

  /**
   * Where center mode evidently means to place the image: at native size,
   * offset by the `(canvas - image) / 2` the C code computes on each axis,
   * so that the margins on either side differ by at most one pixel. The
   * code computes these offsets and then blends at the origin instead.
   */
  function CenterDst(img: Image, cw: nat, ch: nat): (d: Rect)
    ensures d.w == img.width && d.h == img.height
    ensures cw - 1 <= 2 * d.x + d.w <= cw + 1 && ch - 1 <= 2 * d.y + d.h <= ch + 1
    ensures img.width <= cw ==> 0 <= d.x && d.x + d.w <= cw
    ensures img.height <= ch ==> 0 <= d.y && d.y + d.h <= ch
  {
    Rect(CHalf(cw - img.width), CHalf(ch - img.height), img.width, img.height)
  }

  /**
   * A 30 x 30 image on a 100 x 100 canvas: the C code computes the centring
   * offsets (35, 35), yet center mode draws the image in the top-left corner.
   */
  lemma CenterDrawnInCorner(fullDst: Rect)
    ensures CenterDst(Image(30, 30), 100, 100) == Rect(35, 35, 30, 30)
    ensures RenderSpec(Some(Image(30, 30)), Center, 100, 100, fullDst).blends[0].dst == Rect(0, 0, 30, 30)
    ensures RenderSpec(Some(Image(30, 30)), Center, 100, 100, fullDst).blends[0].dst != CenterDst(Image(30, 30), 100, 100)
  {
    assert CHalf(70) == 35;
  }

  /**
   * The effect of `render_wallpaper` for each mode. `image` is the outcome of
   * `imlib_load_image`; `fullDst` is the destination that full mode computes
   * in floating point, supplied from outside.
   */
  function RenderSpec(image: Option<Image>, mode: WallpaperMode, cw: nat, ch: nat, fullDst: Rect): (r: Rendered)
    ensures r.error == 0 || r.error == EINVAL || r.error == ENOSYS
    ensures r.error != 0 ==> r.blends == []
    ensures r.error == 0 && mode != Tile ==> |r.blends| == 1
    ensures image.None? ==> r.error == EINVAL
  {
    if image.None? then Rendered(EINVAL, [])
    else
      var img := image.value;
      match mode
      case Center => Rendered(0, [Blend(Whole(img), Whole(img))])
      case Fill => Rendered(0, [Blend(Whole(img), Rect(0, 0, cw, ch))])
      case Full => Rendered(0, [Blend(Whole(img), fullDst)])
      case Tile => Rendered(0, TileBlends(img, cw, ch))
      case ModeNone => Rendered(ENOSYS, [])
  }

  /**
   * The error cases of rendering: an image that fails to load gives EINVAL
   * whatever the mode, a loaded image in no known mode gives ENOSYS, every
   * other case succeeds; a failed render blends nothing.
   */
  lemma RenderErrors(image: Option<Image>, mode: WallpaperMode, cw: nat, ch: nat, fullDst: Rect)
    ensures RenderSpec(image, mode, cw, ch, fullDst).error == EINVAL <==> image.None?
    ensures RenderSpec(image, mode, cw, ch, fullDst).error == ENOSYS <==> image.Some? && mode == ModeNone
    ensures RenderSpec(image, mode, cw, ch, fullDst).error != 0 <==> image.None? || mode == ModeNone
    ensures RenderSpec(image, mode, cw, ch, fullDst).error != 0 ==> RenderSpec(image, mode, cw, ch, fullDst).blends == []
  {
  }

  /**
   * Center, fill and full blend the whole image exactly once. Center draws
   * it at native size at the origin, since the offsets it computes are never
   * passed on; fill stretches it to the whole canvas; full uses the
   * rectangle it computes.
   */
  lemma RenderSingleBlend(img: Image, mode: WallpaperMode, cw: nat, ch: nat, fullDst: Rect)
    requires mode == Center || mode == Fill || mode == Full
    ensures |RenderSpec(Some(img), mode, cw, ch, fullDst).blends| == 1
    ensures RenderSpec(Some(img), mode, cw, ch, fullDst).blends[0].src == Whole(img)
    ensures mode == Center ==> RenderSpec(Some(img), mode, cw, ch, fullDst).blends[0].dst == Rect(0, 0, img.width, img.height)
    ensures mode == Fill ==> RenderSpec(Some(img), mode, cw, ch, fullDst).blends[0].dst == Rect(0, 0, cw, ch)
    ensures mode == Full ==> RenderSpec(Some(img), mode, cw, ch, fullDst).blends[0].dst == fullDst
  {
  }

  /** The loop `while (v > 0) v -= step;`, run for `left` and for `top`. */
  method StepBack(start: int, step: Pos) returns (v: int)
    ensures v == WalkBack(start, step)
  {
    v := start;
    while v > 0
      invariant WalkBack(v, step) == WalkBack(start, step)
      decreases v
    {
      v := v - step;
    }
  }

  /**
   * The tile case of `render_wallpaper`: centre the origin, walk it back to
   * at most 0 on each axis, then blend native-size copies column by column.
   */
  method TileWallpaper(img: Image, cw: nat, ch: nat) returns (blends: seq<Blend>)
    ensures blends == TileBlends(img, cw, ch)
  {
    var iw, ih := img.width, img.height;
    var left := StepBack(CHalf(cw - iw), iw);
    var top := StepBack(CHalf(ch - ih), ih);
    ghost var all := TileGrid(img, left, top, cw, ch);
    assert all == TileBlends(img, cw, ch);
    blends := [];
    var x := left;
    while x < cw
      invariant blends + TileGrid(img, x, top, cw, ch) == all
      decreases cw - x
    {
      ghost var before := blends;
      blends := TileColumnInto(img, x, top, ch, blends);
      Regroup(before, TileColumn(img, x, top, ch), TileGrid(img, x + iw, top, cw, ch));
      x := x + iw;
    }
  }

  /** The inner loop `for (y = top; y < root_height; y += h)`: one column of copies after `acc`. */
  method TileColumnInto(img: Image, x: int, top: int, ch: nat, acc: seq<Blend>) returns (blends: seq<Blend>)
    ensures blends == acc + TileColumn(img, x, top, ch)
  {
    blends := acc;
    var y := top;
    while y < ch
      invariant acc + TileColumn(img, x, top, ch) == blends + TileColumn(img, x, y, ch)
      decreases ch - y
    {
      Prepend(blends, TileAt(img, x, y), TileColumn(img, x, y + img.height, ch));
      blends := blends + [Blend(Rect(0, 0, img.width, img.height), Rect(x, y, img.width, img.height))];
      y := y + img.height;
    }
  }

  lemma Prepend(a: seq<Blend>, b: Blend, c: seq<Blend>)
    ensures a + ([b] + c) == (a + [b]) + c
  {
  }

  lemma Regroup(a: seq<Blend>, b: seq<Blend>, c: seq<Blend>)
    ensures a + (b + c) == (a + b) + c
  {
  }

  /**
   * `render_wallpaper`: loads the image, then blends it onto the canvas
   * according to `mode`. Tile mode runs the walk-back loops and the nested
   * grid loops of the C code.
   */
  method RenderWallpaper(image: Option<Image>, mode: WallpaperMode, cw: nat, ch: nat, fullDst: Rect)
    returns (error: int, blends: seq<Blend>)
    ensures Rendered(error, blends) == RenderSpec(image, mode, cw, ch, fullDst)
  {
    error, blends := 0, [];
    if image.None? {
      error := EINVAL;
      return;
    }
    var img := image.value;
    var iw, ih := img.width, img.height;
    match mode {
      case Center =>
        var left, top := CHalf(cw - iw), CHalf(ch - ih);
        blends := [Blend(Rect(0, 0, iw, ih), Rect(0, 0, iw, ih))];
      case Fill =>
        blends := [Blend(Rect(0, 0, iw, ih), Rect(0, 0, cw, ch))];
      case Full =>
        blends := [Blend(Rect(0, 0, iw, ih), fullDst)];
      case Tile =>
        blends := TileWallpaper(img, cw, ch);
      case ModeNone =>
        error := ENOSYS;
    }
  }

  // ---------------------------------------------------------------------
  // create_wallpaper

  /** A colour given to `imlib_context_set_color`: red, green, blue, alpha. */
  datatype Rgba = Rgba(r: int, g: int, b: int, a: int)

  predicate IsChannel(v: int)
  {
    0 <= v < 0x100
  }

  /**
   * The background colour split into channels: `(c & 0xff0000) >> 16`,
   * `(c & 0xff00) >> 8` and `c & 0xff`, with alpha 0xff. On a non-negative
   * number, masking then shifting equals dividing then taking the remainder.
   */
  function ColorChannels(color: nat): (c: Rgba)
    ensures IsChannel(c.r) && IsChannel(c.g) && IsChannel(c.b) && c.a == 0xff
  {
    Rgba((color / 0x10000) % 0x100, (color / 0x100) % 0x100, color % 0x100, 0xff)
  }

  /** The 0xRRGGBB value a colour stands for. */
  function PackRgb(c: Rgba): nat
    requires IsChannel(c.r) && IsChannel(c.g) && IsChannel(c.b)
  {
    c.r * 0x10000 + c.g * 0x100 + c.b
  }

  /** The channels hold the low 24 bits of the colour and nothing else. */
  lemma ColorChannelsRoundTrip(color: nat)
    ensures PackRgb(ColorChannels(color)) == color % 0x1000000
  {
    var q2 := color / 0x10000;
    var q1 := color / 0x100;
    assert color == q1 * 0x100 + color % 0x100;
    assert q1 == q2 * 0x100 + q1 % 0x100;
    assert color == q2 * 0x10000 + (q1 % 0x100) * 0x100 + color % 0x100;
    assert q2 == (q2 / 0x100) * 0x100 + q2 % 0x100;
    var low := (q2 % 0x100) * 0x10000 + (q1 % 0x100) * 0x100 + color % 0x100;
    assert color == (q2 / 0x100) * 0x1000000 + low;
    assert 0 <= low < 0x1000000;
  }

  /** Splitting a packed 0xRRGGBB value gives back its channels. */
  lemma PackRgbRoundTrip(c: Rgba)
    requires IsChannel(c.r) && IsChannel(c.g) && IsChannel(c.b) && c.a == 0xff
    ensures ColorChannels(PackRgb(c)) == c
  {
    var v := PackRgb(c);
    assert v == (c.r * 0x100 + c.g) * 0x100 + c.b;
    assert v / 0x100 == c.r * 0x100 + c.g;
    assert v / 0x10000 == (v / 0x100) / 0x100;
  }

  /** One Xinerama screen: its origin and extent. */
  datatype ScreenInfo = ScreenInfo(x: int, y: int, width: nat, height: nat)

  /**
   * A rendered pixmap: its id, its size, the colour it was filled with
   * before blending, and the blends drawn over that fill.
   */
  datatype Canvas = Canvas(pixmap: Xid, width: nat, height: nat, background: Rgba, blends: seq<Blend>)

  /** The canvas `create_wallpaper` renders for one screen. */
  function CanvasSpec(info: ScreenInfo, image: Option<Image>, mode: WallpaperMode, color: nat,
                      pixmap: Xid, fullDst: Rect): Canvas
  {
    Canvas(pixmap, info.width, info.height, ColorChannels(color),
           RenderSpec(image, mode, info.width, info.height, fullDst).blends)
  }

  /**
   * `create_wallpaper`: creates a pixmap of the screen's size (`pixmap` is
   * the id `XCreatePixmap` returns), fills it with the background colour,
   * renders the image on it, and hands the pixmap out only when rendering
   * succeeded. The render error comes back unchanged.
   */
  method CreateWallpaper(info: ScreenInfo, image: Option<Image>, mode: WallpaperMode, color: nat,
                         pixmap: Xid, fullDst: Rect)
    returns (error: int, out: Option<Canvas>)
    ensures error == RenderSpec(image, mode, info.width, info.height, fullDst).error
    ensures out.Some? <==> error == 0
    ensures out.Some? ==> out.value == CanvasSpec(info, image, mode, color, pixmap, fullDst)
  {
    var fill := ColorChannels(color);
    var blends;
    error, blends := RenderWallpaper(image, mode, info.width, info.height, fullDst);
    if error != 0 {
      return error, None;
    }
    out := Some(Canvas(pixmap, info.width, info.height, fill, blends));
  }
}
