/** Windows of one image grid: the padded, reshaped and permuted index tensor of `get_window_index`. */
module WindowGrid {
  import opened Indexing

  const PADDING := -100

  /** A grid of merged tokens (frames, rows, columns) and the window side, both in merged tokens. */
  datatype Grid = Grid(t: nat, h: nat, w: nat, ws: nat)

  /** Windows along a side of `n` tokens once it is padded by one to `ws` tokens. */
  function NumAlong(n: int, ws: int): int
    requires ws != 0
  {
    (n + (ws - n % ws)) / ws
  }

  /** Padding adds a window even when the side already divides evenly. */
  lemma NumAlongIs(n: nat, ws: nat)
    requires ws > 0
    ensures NumAlong(n, ws) == n / ws + 1 && n / ws >= 0
  {
    DivModFacts(n, ws);
    assert n + (ws - n % ws) == (n / ws + 1) * ws by { assert (n / ws + 1) * ws == n / ws * ws + ws; }
    CellDivMod(n / ws + 1, 0, ws);
  }

  function NumTokens(g: Grid): int { g.t * g.h * g.w }

  /** Entry of the padded index tensor. */
  function Padded(g: Grid, frame: int, r: int, c: int): int {
    if r < g.h && c < g.w then (frame * g.h + r) * g.w + c else PADDING
  }

  /** Layout of the windows of a frame: `rows` by `cols` windows of `side` by `side` tokens. */
  datatype Tiling = Tiling(rows: int, cols: int, side: int, perFrame: int, area: int)

  ghost predicate IsTiling(g: Grid, l: Tiling) {
    && l.side == g.ws > 0 && l.rows == NumAlong(g.h, g.ws) > 0 && l.cols == NumAlong(g.w, g.ws) > 0
    && l.perFrame == l.rows * l.cols > 0 && l.area == l.side * l.side > 0
  }

  function TilingOf(g: Grid): (l: Tiling)
    requires g.ws > 0
    ensures IsTiling(g, l)
  {
    NumAlongIs(g.h, g.ws);
    NumAlongIs(g.w, g.ws);
    var rows, cols := NumAlong(g.h, g.ws), NumAlong(g.w, g.ws);
    MulMonotone(1, rows, cols);
    MulMonotone(1, g.ws, g.ws);
    Tiling(rows, cols, g.ws, rows * cols, g.ws * g.ws)
  }

  /** Entry `q` of window `k` after reshaping to windows and permuting. */
  function Entry(g: Grid, l: Tiling, k: int, q: int): int
    requires l.perFrame != 0 && l.cols != 0 && l.side != 0
  {
    var inFrame := k % l.perFrame;
    Padded(g, k / l.perFrame, inFrame / l.cols * l.side + q / l.side, inFrame % l.cols * l.side + q % l.side)
  }

  /* ----- Where a token goes ----- */

  function FrameOf(g: Grid, v: int): int
    requires g.h != 0 && g.w != 0
  {
    v / g.w / g.h
  }

  function RowOf(g: Grid, v: int): int
    requires g.h != 0 && g.w != 0
  {
    v / g.w % g.h
  }

  function ColOf(g: Grid, v: int): int
    requires g.w != 0
  {
    v % g.w
  }

  /** Number of the window that covers the token's row and column in its frame. */
  function WindowOf(g: Grid, l: Tiling, v: int): int
    requires l.side != 0 && g.h != 0 && g.w != 0
  {
    FrameOf(g, v) * l.perFrame + (RowOf(g, v) / l.side * l.cols + ColOf(g, v) / l.side)
  }

  /** Place of the token inside its window. */
  function PlaceOf(g: Grid, l: Tiling, v: int): int
    requires l.side != 0 && g.h != 0 && g.w != 0
  {
    RowOf(g, v) % l.side * l.side + ColOf(g, v) % l.side
  }

  /** A token number is its frame, row and column. */
  lemma TokenParts(g: Grid, frame: int, r: int, c: int)
    requires 0 <= r < g.h && 0 <= c < g.w
    ensures FrameOf(g, (frame * g.h + r) * g.w + c) == frame
    ensures RowOf(g, (frame * g.h + r) * g.w + c) == r
    ensures ColOf(g, (frame * g.h + r) * g.w + c) == c
  {
    CellDivMod(frame * g.h + r, c, g.w);
    CellDivMod(frame, r, g.h);
  }

  lemma TokenRange(g: Grid, frame: int, r: int, c: int)
    requires 0 <= frame < g.t && 0 <= r < g.h && 0 <= c < g.w
    ensures 0 <= (frame * g.h + r) * g.w + c < NumTokens(g)
  {
    CellInRange(frame, r, g.t, g.h);
    CellInRange(frame * g.h + r, c, g.t * g.h, g.w);
  }

  lemma NonEmptyGrid(g: Grid)
    ensures NumTokens(g) > 0 ==> g.h > 0 && g.w > 0
  {
    if g.h == 0 { assert g.t * g.h == 0; }
    if g.w == 0 { assert g.t * g.h * g.w == 0; }
  }

  /** And back. */
  lemma TokenFromParts(g: Grid, v: int)
    requires 0 <= v < NumTokens(g)
    ensures g.h > 0 && g.w > 0
    ensures 0 <= FrameOf(g, v) < g.t && 0 <= RowOf(g, v) < g.h && 0 <= ColOf(g, v) < g.w
    ensures (FrameOf(g, v) * g.h + RowOf(g, v)) * g.w + ColOf(g, v) == v
  {
    NonEmptyGrid(g);
    DivInRange(v, g.t * g.h, g.w);
    DivInRange(v / g.w, g.t, g.h);
    DivModFacts(v, g.w);
    DivModFacts(v / g.w, g.h);
  }

  /** Window and place of a token lie in range. */
  lemma PositionRange(g: Grid, l: Tiling, v: int)
    requires IsTiling(g, l) && 0 <= v < NumTokens(g)
    ensures g.h > 0 && g.w > 0
    ensures 0 <= WindowOf(g, l, v) < g.t * l.perFrame && 0 <= PlaceOf(g, l, v) < l.area
    ensures 0 <= RowOf(g, v) / l.side * l.cols + ColOf(g, v) / l.side < l.perFrame
    ensures 0 <= ColOf(g, v) / l.side < l.cols
  {
    TokenFromParts(g, v);
    var r, c := RowOf(g, v), ColOf(g, v);
    SideRange(r, g.h, g.ws);
    SideRange(c, g.w, g.ws);
    CellInRange(r / l.side, c / l.side, l.rows, l.cols);
    CellInRange(FrameOf(g, v), r / l.side * l.cols + c / l.side, g.t, l.perFrame);
    CellInRange(r % l.side, c % l.side, l.side, l.side);
  }

  lemma SideRange(x: int, n: nat, ws: nat)
    requires ws > 0 && 0 <= x < n
    ensures 0 <= x / ws < NumAlong(n, ws) && 0 <= x % ws < ws
  {
    NumAlongIs(n, ws);
    DivModFacts(x, ws);
    DivModFacts(n, ws);
    if x / ws > n / ws { MulMonotone(n / ws + 1, x / ws, ws); }
    if x / ws < 0 { MulMonotone(x / ws, -1, ws); }
  }

  /** The token sits where its window and place say. */
  lemma EntryOfToken(g: Grid, l: Tiling, v: int)
    requires IsTiling(g, l) && 0 <= v < NumTokens(g)
    ensures g.h > 0 && g.w > 0
    ensures Entry(g, l, WindowOf(g, l, v), PlaceOf(g, l, v)) == v
  {
    TokenFromParts(g, v);
    PositionRange(g, l, v);
    var f, r, c := FrameOf(g, v), RowOf(g, v), ColOf(g, v);
    CellDivMod(f, r / l.side * l.cols + c / l.side, l.perFrame);
    CellDivMod(r / l.side, c / l.side, l.cols);
    DivModFacts(r, l.side);
    DivModFacts(c, l.side);
    CellDivMod(r % l.side, c % l.side, l.side);
  }

  /** An entry that is not padding is a token, and its window and place are those of the entry. */
  lemma TokenOfEntry(g: Grid, l: Tiling, k: int, q: int)
    requires IsTiling(g, l) && 0 <= k < g.t * l.perFrame && 0 <= q < l.area
    requires Entry(g, l, k, q) != PADDING
    ensures 0 <= Entry(g, l, k, q) < NumTokens(g) && g.h > 0 && g.w > 0
    ensures WindowOf(g, l, Entry(g, l, k, q)) == k && PlaceOf(g, l, Entry(g, l, k, q)) == q
  {
    DivInRange(k, g.t, l.perFrame);
    DivModFacts(k, l.perFrame);
    var f, inFrame := k / l.perFrame, k % l.perFrame;
    DivInRange(inFrame, l.rows, l.cols);
    DivModFacts(inFrame, l.cols);
    DivInRange(q, l.side, l.side);
    DivModFacts(q, l.side);
    var r, c := inFrame / l.cols * l.side + q / l.side, inFrame % l.cols * l.side + q % l.side;
    MulNonNegative(inFrame / l.cols, l.side);
    MulNonNegative(inFrame % l.cols, l.side);
    TokenRange(g, f, r, c);
    TokenParts(g, f, r, c);
    CellDivMod(inFrame / l.cols, q / l.side, l.side);
    CellDivMod(inFrame % l.cols, q % l.side, l.side);
  }

  /** Same frame, and same `ws` by `ws` square of it. */
  predicate SameSquare(g: Grid, u: int, v: int)
    requires g.ws > 0 && g.h > 0 && g.w > 0
  {
    && u / g.w / g.h == v / g.w / g.h
    && u / g.w % g.h / g.ws == v / g.w % g.h / g.ws
    && u % g.w / g.ws == v % g.w / g.ws
  }

  /** Two tokens have the same window exactly when they lie in the same square of the same frame. */
  lemma WindowsAreSquares(g: Grid, l: Tiling, u: int, v: int)
    requires IsTiling(g, l) && 0 <= u < NumTokens(g) && 0 <= v < NumTokens(g)
    ensures g.h > 0 && g.w > 0
    ensures WindowOf(g, l, u) == WindowOf(g, l, v) <==> SameSquare(g, u, v)
  {
    PositionRange(g, l, u);
    PositionRange(g, l, v);
    var a, b := RowOf(g, u) / l.side * l.cols + ColOf(g, u) / l.side, RowOf(g, v) / l.side * l.cols + ColOf(g, v) / l.side;
    CellUnique(FrameOf(g, u), a, FrameOf(g, v), b, l.perFrame);
    CellUnique(RowOf(g, u) / l.side, ColOf(g, u) / l.side, RowOf(g, v) / l.side, ColOf(g, v) / l.side, l.cols);
  }
}
