/** The 64x32 monochrome frame buffer of the interpreter (src/display.rs).
    Pixels are bytes that only ever hold 0 or 1; sprites are XOR-blitted
    with toroidal wrap-around and report whether they erased a lit pixel. */
module Display {

  const Width: nat := 64
  const Height: nat := 32

  /** Row-major pixel grid: Height rows of Width bytes. */
  type Grid = seq<seq<bv8>>

  predicate IsGrid(g: Grid) {
    |g| == Height && forall r :: 0 <= r < Height ==> |g[r]| == Width
  }

  /** Every pixel is 0 or 1. */
  predicate Binary(g: Grid)
    requires IsGrid(g)
  {
    forall r, c :: 0 <= r < Height && 0 <= c < Width ==> g[r][c] == 0 || g[r][c] == 1
  }

  function Blank(): (g: Grid)
    ensures IsGrid(g) && Binary(g)
    ensures forall r, c :: 0 <= r < Height && 0 <= c < Width ==> g[r][c] == 0
  {
    seq(Height, _ => seq(Width, _ => 0))
  }

  /** The value of the display: the grid and the flag telling the host to repaint. */
  datatype Screen = Screen(gfx: Grid, drawFlag: bool)

  predicate ValidScreen(s: Screen) {
    IsGrid(s.gfx) && Binary(s.gfx)
  }

  /** The state after `new` and after `clear`: all pixels dark, repaint requested. */
  function Cleared(): (s: Screen)
    ensures ValidScreen(s) && s.drawFlag
  {
    Screen(Blank(), true)
  }

  /** What `draw_screen` leaves behind: nothing happens unless the flag is set,
      and then only the flag is lowered (rendering itself is not modelled). */
  function Presented(s: Screen): (r: Screen)
    ensures r.gfx == s.gfx && !r.drawFlag
  {
    if !s.drawFlag then s else s.(drawFlag := false)
  }

  // ---------------------------------------------------------------------
  // Wrap-around of coordinates.
  // ---------------------------------------------------------------------

  /** v mod n, by repeated subtraction: the coordinate v wrapped onto [0, n). */
  function Wrap(v: nat, n: nat): (w: nat)
    requires n > 0
    ensures w < n
    decreases v
  {
    if v < n then v else Wrap(v - n, n)
  }

  /** Wrap is the remainder `%` that `draw` computes. */
  lemma {:induction false} WrapIsMod(v: nat, n: nat)
    requires n == Width || n == Height
    ensures Wrap(v, n) == v % n
    decreases v
  {
    if v >= n {
      WrapIsMod(v - n, n);
      if n == Width {
        assert v / 64 == (v - 64) / 64 + 1;
        assert v % 64 == (v - 64) % 64;
      } else {
        assert v / 32 == (v - 32) / 32 + 1;
        assert v % 32 == (v - 32) % 32;
      }
    }
  }

  /** Only the wrapped base matters when an offset is added. */
  lemma {:induction false} WrapAdd(base: nat, k: nat, n: nat)
    requires n > 0
    ensures Wrap(base + k, n) == Wrap(Wrap(base, n) + k, n)
    decreases base
  {
    if base >= n {
      WrapAdd(base - n, k, n);
    }
  }

  /** The offset k < n from base that wraps onto target. */
  function Offset(target: nat, base: nat, n: nat): (k: nat)
    requires 0 < n && target < n
    ensures k < n
  {
    Wrap(target + n - Wrap(base, n), n)
  }

  /** Moving k < n steps from base lands on target exactly when k is the
      offset from base to target. */
  lemma WrapOffset(base: nat, k: nat, target: nat, n: nat)
    requires k < n && target < n
    ensures Wrap(base + k, n) == target <==> Offset(target, base, n) == k
  {
    var b := Wrap(base, n);
    WrapAdd(base, k, n);
    assert Wrap(b + k, n) == if b + k < n then b + k else b + k - n;
    assert Wrap(target + n - b, n) == if target + n - b < n then target + n - b else target - b;
  }

  // ---------------------------------------------------------------------
  // Sprite drawing, written as the nested loops of `draw` execute it.
  // ---------------------------------------------------------------------

  /** A grid together with the collision byte accumulated so far. */
  datatype Blit = Blit(gfx: Grid, collision: bv8)

  /** The masks `0x80 >> i` for i in [0, 8), tabulated so that proofs about a
      symbolic column need no integer-to-bit-vector conversion. */
  const ColumnMask: seq<bv8> := [0x80, 0x40, 0x20, 0x10, 0x08, 0x04, 0x02, 0x01]

  lemma ColumnMaskIsShift(i: nat)
    requires i < 8
    ensures ColumnMask[i] == 0x80 >> i
  {
    if i == 0 {} else if i == 1 {} else if i == 2 {} else if i == 3 {}
    else if i == 4 {} else if i == 5 {} else if i == 6 {} else {}
  }

  /** Bit i (counted from the most significant) of sprite row j. */
  predicate SpriteBit(sprite: seq<bv8>, j: nat, i: nat)
    requires j < |sprite| && i < 8
  {
    sprite[j] & ColumnMask[i] != 0
  }

  /** SpriteBit is the test `sprite[j] & (0x80 >> i) != 0` of `draw`. */
  lemma SpriteBitIsShift(sprite: seq<bv8>, j: nat, i: nat)
    requires j < |sprite| && i < 8
    ensures SpriteBit(sprite, j, i) <==> sprite[j] & (0x80 >> i) != 0
  {
    ColumnMaskIsShift(i);
  }

  /** One iteration of the inner loop: XOR bit i of row j onto the wrapped pixel. */
  function PlotBit(b: Blit, x: nat, y: nat, sprite: seq<bv8>, j: nat, i: nat): (r: Blit)
    requires IsGrid(b.gfx) && j < |sprite| && i < 8
    ensures IsGrid(r.gfx)
    ensures b.collision <= 1 ==> r.collision <= 1
  {
    var row := Wrap(y + j, Height);
    var col := Wrap(x + i, Width);
    if SpriteBit(sprite, j, i) then
      Blit(b.gfx[row := b.gfx[row][col := b.gfx[row][col] ^ 1]],
           if b.gfx[row][col] == 1 then 1 else b.collision)
    else
      b
  }

  /** Sprite row of bit k, counting eight bits to a row: k / 8, by counting. */
  function RowOf(k: nat): nat {
    if k < 8 then 0 else RowOf(k - 8) + 1
  }

  /** Sprite column of bit k: k % 8, by counting. */
  function ColOf(k: nat): nat {
    if k < 8 then k else ColOf(k - 8)
  }

  /** Bit k lies in column ColOf(k) of row RowOf(k). */
  lemma {:induction false} RowColOf(k: nat)
    ensures 8 * RowOf(k) + ColOf(k) == k && ColOf(k) < 8
  {
    if k >= 8 {
      RowColOf(k - 8);
    }
  }

  /** Bit 8 * j + i of a sprite is column i of row j, and no other bit is. */
  lemma BitIndex(j: nat, i: nat, k: nat)
    requires i < 8
    ensures 8 * j + i == k <==> j == RowOf(k) && i == ColOf(k)
  {
    RowColOf(k);
  }

  /** The first k sprite bits plotted onto g, starting with no collision, in
      the order the nested loops of `draw` visit them: row by row, and within
      a row from the most significant bit. */
  function PlotBits(g: Grid, x: nat, y: nat, sprite: seq<bv8>, k: nat): (r: Blit)
    requires IsGrid(g) && k <= 8 * |sprite|
    ensures IsGrid(r.gfx)
    ensures r.collision <= 1
    decreases k
  {
    if k == 0 then Blit(g, 0)
    else
      RowColOf(k - 1);
      PlotBit(PlotBits(g, x, y, sprite, k - 1), x, y, sprite, RowOf(k - 1), ColOf(k - 1))
  }

  /** XOR-ing a set bit onto a pixel that is 0 or 1 leaves it 0 or 1. */
  lemma PlotBitBinary(b: Blit, x: nat, y: nat, sprite: seq<bv8>, j: nat, i: nat)
    requires IsGrid(b.gfx) && Binary(b.gfx) && j < |sprite| && i < 8
    ensures Binary(PlotBit(b, x, y, sprite, j, i).gfx)
  {
    var r := PlotBit(b, x, y, sprite, j, i).gfx;
    var row, col := Wrap(y + j, Height), Wrap(x + i, Width);
    forall r', c' | 0 <= r' < Height && 0 <= c' < Width
      ensures r[r'][c'] == 0 || r[r'][c'] == 1
    {
      if r' == row && c' == col {
        assert b.gfx[row][col] == 0 || b.gfx[row][col] == 1;
      }
    }
  }

  /** Plotting any number of bits keeps a grid of 0s and 1s so. */
  lemma {:induction false} PlotBitsBinary(g: Grid, x: nat, y: nat, sprite: seq<bv8>, k: nat)
    requires IsGrid(g) && k <= 8 * |sprite|
    ensures Binary(g) ==> Binary(PlotBits(g, x, y, sprite, k).gfx)
    decreases k
  {
    if k > 0 && Binary(g) {
      PlotBitsBinary(g, x, y, sprite, k - 1);
      RowColOf(k - 1);
      PlotBitBinary(PlotBits(g, x, y, sprite, k - 1), x, y, sprite, RowOf(k - 1), ColOf(k - 1));
    }
  }

  /** Plotting bit k = 8 * j + i is plotting column i of row j. */
  lemma PlotBitsNext(g: Grid, x: nat, y: nat, sprite: seq<bv8>, k: nat, j: nat, i: nat)
    requires IsGrid(g) && j < |sprite| && i < 8 && k == 8 * j + i
    ensures PlotBits(g, x, y, sprite, k + 1) == PlotBit(PlotBits(g, x, y, sprite, k), x, y, sprite, j, i)
  {
    BitIndex(j, i, k);
  }

  /** The grid and collision byte `draw(x, y, sprite)` produces from g. */
  function XorSprite(g: Grid, x: nat, y: nat, sprite: seq<bv8>): (r: Blit)
    requires IsGrid(g)
    ensures IsGrid(r.gfx)
    ensures Binary(g) ==> Binary(r.gfx)
    ensures r.collision == 0 || r.collision == 1
  {
    PlotBitsBinary(g, x, y, sprite, 8 * |sprite|);
    PlotBits(g, x, y, sprite, 8 * |sprite|)
  }

  // ---------------------------------------------------------------------
  // What drawing means, pixel by pixel.
  // ---------------------------------------------------------------------

  /** Sprite row and column whose bit would land on pixel (r, c) when the
      sprite is drawn at (x, y). */
  function CellRow(y: nat, r: nat): (j: nat)
    requires r < Height
    ensures j < Height
  {
    Offset(r, y, Height)
  }

  function CellCol(x: nat, c: nat): (i: nat)
    requires c < Width
    ensures i < Width
  {
    Offset(c, x, Width)
  }

  /** Whether the sprite drawn at (x, y) has a set bit landing on pixel (r, c). */
  predicate Covers(x: nat, y: nat, sprite: seq<bv8>, r: nat, c: nat)
    requires r < Height && c < Width
  {
    CellRow(y, r) < |sprite| && CellCol(x, c) < 8 && SpriteBit(sprite, CellRow(y, r), CellCol(x, c))
  }

  /** Bit i of sprite row j lands on pixel (r, c) exactly when (j, i) is the
      cell for (r, c). */
  lemma LandsOn(x: nat, y: nat, j: nat, i: nat, r: nat, c: nat)
    requires j < Height && i < 8 && r < Height && c < Width
    ensures (Wrap(y + j, Height) == r && Wrap(x + i, Width) == c) <==> (CellRow(y, r) == j && CellCol(x, c) == i)
  {
    WrapOffset(y, j, r, Height);
    WrapOffset(x, i, c, Width);
  }

  /** Bit i of sprite row j is set and lands on a lit pixel of g. */
  predicate HitsLit(g: Grid, x: nat, y: nat, sprite: seq<bv8>, j: nat, i: nat)
    requires IsGrid(g) && j < |sprite| && i < 8
  {
    SpriteBit(sprite, j, i) && g[Wrap(y + j, Height)][Wrap(x + i, Width)] == 1
  }

  /** Some set sprite bit lands on a lit pixel of g. */
  predicate Collides(g: Grid, x: nat, y: nat, sprite: seq<bv8>)
    requires IsGrid(g)
  {
    exists j: nat, i: nat :: j < |sprite| && i < 8 && HitsLit(g, x, y, sprite, j, i)
  }

  /** Some set bit among the first k lands on a lit pixel of g. */
  predicate CollidesBefore(g: Grid, x: nat, y: nat, sprite: seq<bv8>, k: nat)
    requires IsGrid(g)
  {
    exists j: nat, i: nat :: j < |sprite| && i < 8 && 8 * j + i < k && HitsLit(g, x, y, sprite, j, i)
  }

  /** Plotting one bit changes only the pixel it lands on, and that one only
      when the bit is set. */
  lemma PlotBitPixel(b: Blit, x: nat, y: nat, sprite: seq<bv8>, j: nat, i: nat, r: nat, c: nat)
    requires IsGrid(b.gfx) && j < |sprite| && i < 8 && r < Height && c < Width
    ensures PlotBit(b, x, y, sprite, j, i).gfx[r][c] ==
      if SpriteBit(sprite, j, i) && Wrap(y + j, Height) == r && Wrap(x + i, Width) == c
      then b.gfx[r][c] ^ 1 else b.gfx[r][c]
  {
  }

  /** Plotting one bit raises the collision byte exactly when it hits a lit pixel. */
  lemma PlotBitCollision(b: Blit, x: nat, y: nat, sprite: seq<bv8>, j: nat, i: nat)
    requires IsGrid(b.gfx) && j < |sprite| && i < 8
    ensures PlotBit(b, x, y, sprite, j, i).collision ==
      if HitsLit(b.gfx, x, y, sprite, j, i) then 1 else b.collision
  {
  }

  /** Whether (r, c) is covered by one of the first k bits. */
  predicate CoveredBefore(x: nat, y: nat, sprite: seq<bv8>, k: nat, r: nat, c: nat)
    requires r < Height && c < Width
  {
    Covers(x, y, sprite, r, c) && 8 * CellRow(y, r) + CellCol(x, c) < k
  }

  /** After the first k bits, the toggled pixels are exactly the covered ones
      whose sprite cell comes before bit k. */
  lemma {:induction false} PlotBitsPixel(g: Grid, x: nat, y: nat, sprite: seq<bv8>, k: nat, r: nat, c: nat)
    requires IsGrid(g) && k <= 8 * |sprite| && |sprite| <= Height && r < Height && c < Width
    ensures PlotBits(g, x, y, sprite, k).gfx[r][c] ==
      if CoveredBefore(x, y, sprite, k, r, c) then g[r][c] ^ 1 else g[r][c]
    decreases k
  {
    if k > 0 {
      PlotBitsPixel(g, x, y, sprite, k - 1, r, c);
      var j, i := RowOf(k - 1), ColOf(k - 1);
      RowColOf(k - 1);
      PlotBitsNext(g, x, y, sprite, k - 1, j, i);
      PlotBitPixel(PlotBits(g, x, y, sprite, k - 1), x, y, sprite, j, i, r, c);
      LandsOn(x, y, j, i, r, c);
      CoveredBeforeStep(x, y, sprite, k - 1, j, i, r, c);
    }
  }

  /** Bit k = 8 * j + i is the only cell the first k + 1 bits cover beyond the first k. */
  lemma CoveredBeforeStep(x: nat, y: nat, sprite: seq<bv8>, k: nat, j: nat, i: nat, r: nat, c: nat)
    requires j < |sprite| && i < 8 && k == 8 * j + i && r < Height && c < Width
    ensures CoveredBefore(x, y, sprite, k + 1, r, c) <==>
      CoveredBefore(x, y, sprite, k, r, c) ||
      (SpriteBit(sprite, j, i) && CellRow(y, r) == j && CellCol(x, c) == i)
  {
    if Covers(x, y, sprite, r, c) {
      BitIndex(CellRow(y, r), CellCol(x, c), k);
      BitIndex(j, i, k);
    }
  }

  /** After the first k bits the collision byte is 1 exactly when one of those
      bits is set and landed on a pixel lit in the original grid. */
  lemma {:induction false} PlotBitsCollision(g: Grid, x: nat, y: nat, sprite: seq<bv8>, k: nat)
    requires IsGrid(g) && k <= 8 * |sprite| && |sprite| <= Height
    ensures PlotBits(g, x, y, sprite, k).collision == if CollidesBefore(g, x, y, sprite, k) then 1 else 0
    decreases k
  {
    if k > 0 {
      PlotBitsCollision(g, x, y, sprite, k - 1);
      var j, i := RowOf(k - 1), ColOf(k - 1);
      RowColOf(k - 1);
      var before := PlotBits(g, x, y, sprite, k - 1);
      PlotBitsNext(g, x, y, sprite, k - 1, j, i);
      UntouchedBeforeItsTurn(g, x, y, sprite, k - 1, j, i);
      PlotBitCollision(before, x, y, sprite, j, i);
      CollidesBeforeStep(g, x, y, sprite, k - 1, j, i);
    }
  }

  /** The pixel bit k = 8 * j + i lands on has not been touched by the bits
      before it. */
  lemma UntouchedBeforeItsTurn(g: Grid, x: nat, y: nat, sprite: seq<bv8>, k: nat, j: nat, i: nat)
    requires IsGrid(g) && j < |sprite| <= Height && i < 8 && k == 8 * j + i
    ensures HitsLit(PlotBits(g, x, y, sprite, k).gfx, x, y, sprite, j, i) == HitsLit(g, x, y, sprite, j, i)
  {
    var row, col := Wrap(y + j, Height), Wrap(x + i, Width);
    LandsOn(x, y, j, i, row, col);
    PlotBitsPixel(g, x, y, sprite, k, row, col);
  }

  /** Bit k = 8 * j + i is the only one the first k + 1 bits add to the first k. */
  lemma CollidesBeforeStep(g: Grid, x: nat, y: nat, sprite: seq<bv8>, k: nat, j: nat, i: nat)
    requires IsGrid(g) && j < |sprite| && i < 8 && k == 8 * j + i
    ensures CollidesBefore(g, x, y, sprite, k + 1) <==>
      CollidesBefore(g, x, y, sprite, k) || HitsLit(g, x, y, sprite, j, i)
  {
    if CollidesBefore(g, x, y, sprite, k + 1) && !CollidesBefore(g, x, y, sprite, k) {
      var j': nat, i': nat :| j' < |sprite| && i' < 8 && 8 * j' + i' < k + 1 && HitsLit(g, x, y, sprite, j', i');
      BitIndex(j', i', k);
      BitIndex(j, i, k);
    }
  }

  /** All 8 * |sprite| bits together collide exactly when the sprite collides. */
  lemma CollidesBeforeAll(g: Grid, x: nat, y: nat, sprite: seq<bv8>)
    requires IsGrid(g)
    ensures CollidesBefore(g, x, y, sprite, 8 * |sprite|) <==> Collides(g, x, y, sprite)
  {
    if Collides(g, x, y, sprite) {
      var j: nat, i: nat :| j < |sprite| && i < 8 && HitsLit(g, x, y, sprite, j, i);
      assert 8 * j + i < 8 * |sprite|;
    }
  }

  /** `draw` toggles exactly the covered pixels and leaves every other pixel
      alone; it returns 1 exactly when it erased a lit pixel. Sprites of at
      most Height rows cannot hit a pixel twice (DXYN passes at most 15). */
  lemma XorSpriteMeaning(g: Grid, x: nat, y: nat, sprite: seq<bv8>)
    requires IsGrid(g) && |sprite| <= Height
    ensures forall r: nat, c: nat :: r < Height && c < Width ==>
      XorSprite(g, x, y, sprite).gfx[r][c] == if Covers(x, y, sprite, r, c) then g[r][c] ^ 1 else g[r][c]
    ensures XorSprite(g, x, y, sprite).collision == if Collides(g, x, y, sprite) then 1 else 0
  {
    forall r: nat, c: nat | r < Height && c < Width
      ensures XorSprite(g, x, y, sprite).gfx[r][c] == if Covers(x, y, sprite, r, c) then g[r][c] ^ 1 else g[r][c]
    {
      PlotBitsPixel(g, x, y, sprite, 8 * |sprite|, r, c);
      if Covers(x, y, sprite, r, c) {
        assert 8 * CellRow(y, r) + CellCol(x, c) < 8 * |sprite|;
      }
    }
    PlotBitsCollision(g, x, y, sprite, 8 * |sprite|);
    CollidesBeforeAll(g, x, y, sprite);
  }

  /** Bit i of row j lands on pixel (Wrap(y + j), Wrap(x + i)): the
      wrap-around on both axes. */
  lemma CoversWrapped(x: nat, y: nat, sprite: seq<bv8>, j: nat, i: nat)
    requires j < |sprite| <= Height && i < 8
    ensures Covers(x, y, sprite, Wrap(y + j, Height), Wrap(x + i, Width)) <==> SpriteBit(sprite, j, i)
  {
    LandsOn(x, y, j, i, Wrap(y + j, Height), Wrap(x + i, Width));
  }

  /** Drawing the same sprite twice at the same place restores the grid. */
  lemma XorSpriteInvolution(g: Grid, x: nat, y: nat, sprite: seq<bv8>)
    requires IsGrid(g) && |sprite| <= Height
    ensures XorSprite(XorSprite(g, x, y, sprite).gfx, x, y, sprite).gfx == g
  {
    var once := XorSprite(g, x, y, sprite).gfx;
    var twice := XorSprite(once, x, y, sprite).gfx;
    XorSpriteMeaning(g, x, y, sprite);
    XorSpriteMeaning(once, x, y, sprite);
    forall r: nat | r < Height ensures twice[r] == g[r] {
      forall c: nat | c < Width ensures twice[r][c] == g[r][c] {
        if Covers(x, y, sprite, r, c) {
          assert twice[r][c] == g[r][c] ^ 1 ^ 1;
        }
      }
    }
  }

  /** The second of two identical draws reports a collision exactly when the
      first one lit some pixel, i.e. when a set bit landed on a dark pixel. */
  lemma RedrawCollision(g: Grid, x: nat, y: nat, sprite: seq<bv8>)
    requires IsGrid(g) && Binary(g) && |sprite| <= Height
    ensures XorSprite(XorSprite(g, x, y, sprite).gfx, x, y, sprite).collision == 1 <==>
      exists j: nat, i: nat :: j < |sprite| && i < 8 && SpriteBit(sprite, j, i) &&
        g[Wrap(y + j, Height)][Wrap(x + i, Width)] == 0
  {
    var once := XorSprite(g, x, y, sprite).gfx;
    XorSpriteMeaning(g, x, y, sprite);
    XorSpriteMeaning(once, x, y, sprite);
    forall j: nat, i: nat | j < |sprite| && i < 8 && SpriteBit(sprite, j, i)
      ensures HitsLit(once, x, y, sprite, j, i) <==> g[Wrap(y + j, Height)][Wrap(x + i, Width)] == 0
    {
      CoversWrapped(x, y, sprite, j, i);
    }
  }

  /** From a dark screen: the first draw never collides, the second reports a
      collision exactly when the sprite has a set bit, and the screen is dark again. */
  lemma DrawTwiceOnBlank(x: nat, y: nat, sprite: seq<bv8>)
    requires |sprite| <= Height
    ensures XorSprite(Blank(), x, y, sprite).collision == 0
    ensures XorSprite(XorSprite(Blank(), x, y, sprite).gfx, x, y, sprite).gfx == Blank()
    ensures XorSprite(XorSprite(Blank(), x, y, sprite).gfx, x, y, sprite).collision == 1 <==>
      exists j: nat, i: nat :: j < |sprite| && i < 8 && SpriteBit(sprite, j, i)
  {
    XorSpriteMeaning(Blank(), x, y, sprite);
    XorSpriteInvolution(Blank(), x, y, sprite);
    RedrawCollision(Blank(), x, y, sprite);
    if exists j: nat, i: nat :: j < |sprite| && i < 8 && SpriteBit(sprite, j, i) {
      var j: nat, i: nat :| j < |sprite| && i < 8 && SpriteBit(sprite, j, i);
      assert Blank()[Wrap(y + j, Height)][Wrap(x + i, Width)] == 0;
    }
  }

  // ---------------------------------------------------------------------
  // The display object.
  // ---------------------------------------------------------------------

  class Display {
    const gfx: array2<bv8>
    var drawFlag: bool
    /** The grid `gfx` holds, as a value. */
    ghost var Image: Grid

    ghost predicate Valid()
      reads this, gfx
    {
      gfx.Length0 == Height && gfx.Length1 == Width && IsGrid(Image) && Binary(Image) &&
      forall r, c :: 0 <= r < Height && 0 <= c < Width ==> gfx[r, c] == Image[r][c]
    }

    ghost function View(): Screen
      reads this
    {
      Screen(Image, drawFlag)
    }

    constructor ()
      ensures Valid() && fresh(gfx)
      ensures View() == Cleared()
    {
      gfx := new bv8[Height, Width]((_, _) => 0);
      drawFlag := true;
      Image := Blank();
    }

    method Clear()
      requires Valid()
      modifies this, gfx
      ensures Valid()
      ensures View() == Cleared()
    {
      forall r, c | 0 <= r < Height && 0 <= c < Width {
        gfx[r, c] := 0;
      }
      Image := Blank();
      drawFlag := true;
    }

    method Draw(x: nat, y: nat, sprite: seq<bv8>) returns (collision: bv8)
      requires Valid()
      modifies this, gfx
      ensures Valid()
      ensures Blit(Image, collision) == XorSprite(old(Image), x, y, sprite)
      ensures drawFlag
    {
      collision := 0;
      var n := |sprite|;
      var j := 0;
      ghost var g := Image;
      ghost var k := 0;
      while j < n
        invariant 0 <= j <= n && k == 8 * j
        invariant Valid() && IsGrid(g)
        invariant Blit(Image, collision) == PlotBits(g, x, y, sprite, k)
      {
        collision := DrawRow(x, y, sprite, j, collision, g, k);
        j, k := j + 1, k + 8;
      }
      assert k == 8 * |sprite|;
      drawFlag := true;
    }

    /** The inner loop of `draw`: the eight bits of sprite row j, most
        significant first, continuing the plot of the earlier rows onto g. */
    method DrawRow(x: nat, y: nat, sprite: seq<bv8>, j: nat, collision0: bv8, ghost g: Grid, ghost k0: nat)
      returns (collision: bv8)
      requires Valid() && IsGrid(g) && j < |sprite| && k0 == 8 * j
      requires Blit(Image, collision0) == PlotBits(g, x, y, sprite, k0)
      modifies this`Image, gfx
      ensures Valid()
      ensures Blit(Image, collision) == PlotBits(g, x, y, sprite, k0 + 8)
    {
      collision := collision0;
      var i := 0;
      ghost var k := k0;
      while i < 8
        invariant 0 <= i <= 8 && k == 8 * j + i
        invariant Valid()
        invariant Blit(Image, collision) == PlotBits(g, x, y, sprite, k)
      {
        collision := DrawBit(x, y, sprite, j, i, collision, g, k);
        i, k := i + 1, k + 1;
      }
      assert k == k0 + 8;
    }

    /** One iteration of `draw`'s inner loop: XOR bit i of sprite row j onto
        the wrapped pixel, raising the collision byte if that pixel was lit. */
    method DrawBit(x: nat, y: nat, sprite: seq<bv8>, j: nat, i: nat, collision0: bv8, ghost g: Grid, ghost k: nat)
      returns (collision: bv8)
      requires Valid() && IsGrid(g) && j < |sprite| && i < 8 && k == 8 * j + i
      requires Blit(Image, collision0) == PlotBits(g, x, y, sprite, k)
      modifies this`Image, gfx
      ensures Valid()
      ensures Blit(Image, collision) == PlotBits(g, x, y, sprite, k + 1)
    {
      collision := collision0;
      var yj := (y + j) % Height;
      var xi := (x + i) % Width;
      WrapIsMod(y + j, Height);
      WrapIsMod(x + i, Width);
      SpriteBitIsShift(sprite, j, i);
      if sprite[j] & (0x80 >> i) != 0 {
        if gfx[yj, xi] == 1 {
          collision := 1;
        }
        Toggle(yj, xi);
      }
      assert Blit(Image, collision) == PlotBit(old(Blit(Image, collision0)), x, y, sprite, j, i);
      PlotBitsNext(g, x, y, sprite, k, j, i);
    }

    /** `self.gfx[yj][xi] ^= 1`: flip one pixel. */
    method Toggle(row: nat, col: nat)
      requires Valid() && row < Height && col < Width
      modifies this`Image, gfx
      ensures Valid()
      ensures Image == old(Image)[row := old(Image)[row][col := old(Image)[row][col] ^ 1]]
    {
      gfx[row, col] := gfx[row, col] ^ 1;
      Image := Image[row := Image[row][col := Image[row][col] ^ 1]];
      forall r, c | 0 <= r < Height && 0 <= c < Width
        ensures Image[r][c] == 0 || Image[r][c] == 1
      {
        if r == row && c == col {
          assert old(Image)[r][c] == 0 || old(Image)[r][c] == 1;
        }
      }
    }

    method DrawScreen()
      requires Valid()
      modifies this`drawFlag
      ensures Valid()
      ensures View() == Presented(old(View()))
    {
      if !drawFlag {
        return;
      }
      drawFlag := false;
    }
  }
}
