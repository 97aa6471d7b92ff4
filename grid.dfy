/** The 8x6 grid as a row-major sequence of 48 cells, with the aliased double-wide headquarters:
    the raw cells (0,3) and (7,3) hold a placeholder, and every read or write addressed to a
    placeholder is redirected one column left, to the headquarters cell (0,2) or (7,2). */
module Grid {
  import opened Points
  import opened Pieces

  const Width: int := 6
  const Height: int := 8
  const NumCells: int := 48

  type Cells = seq<Piece>

  /** The entrance cells of side 0 (first two) and side 1 (last two). */
  const Entrances: seq<Point> := [Point(3, 1), Point(3, 4), Point(4, 1), Point(4, 4)]
  /** Headquarters[id] = [the logical headquarters cell, its placeholder]. */
  const Headquarters: seq<seq<Point>> := [[Point(0, 2), Point(0, 3)], [Point(7, 2), Point(7, 3)]]

  predicate InBounds(p: Point) {
    0 <= p.y < Height && 0 <= p.x < Width
  }

  function Index(p: Point): (i: nat)
    requires InBounds(p)
    ensures i < NumCells
  {
    p.y * Width + p.x
  }

  function PointOf(i: int): (p: Point)
    requires 0 <= i < NumCells
    ensures InBounds(p) && Index(p) == i
  {
    Point(i / Width, i % Width)
  }

  lemma IndexIsInjective(p: Point, q: Point)
    requires InBounds(p) && InBounds(q)
    ensures Index(p) == Index(q) <==> p == q
    ensures PointOf(Index(p)) == p
  {
  }

  /** Raw indices of the two placeholders, (0,3) and (7,3). */
  predicate IsPlaceholderIndex(i: int) {
    i == 3 || i == 45
  }

  /** The layout invariant Initialize establishes and every write keeps: 48 cells, with the
      placeholder kind at exactly the raw cells (0,3) and (7,3). */
  predicate Wellformed(g: Cells) {
    |g| == NumCells &&
    forall i :: 0 <= i < NumCells ==> (g[i].kind == DummyHeadquarters <==> IsPlaceholderIndex(i))
  }

  /** Whether the RAW cell at p is a placeholder (no redirection). */
  predicate IsDummyHeadquarters(g: Cells, p: Point)
    requires |g| == NumCells && InBounds(p)
  {
    g[Index(p)].kind == DummyHeadquarters
  }

  predicate ExistHeadquartersAt(p: Point) {
    (p.y == 0 || p.y == Height - 1) && p.x == Width / 2 - 1
  }

  lemma HeadquartersCells(p: Point)
    ensures ExistHeadquartersAt(p) <==> p == Headquarters[0][0] || p == Headquarters[1][0]
  {
  }

  /** The logical cell a coordinate stands for, independent of the grid's contents. */
  function Normalize(p: Point): Point {
    if (p.y == 0 || p.y == Height - 1) && p.x == Width / 2 then Point(p.y, p.x - 1) else p
  }

  /** The redirection `board()` and `set_board()` apply: it reads the raw cell at p. */
  function Resolve(g: Cells, p: Point): (q: Point)
    requires Wellformed(g) && InBounds(p)
    ensures q == Normalize(p)
    ensures InBounds(q) && !IsPlaceholderIndex(Index(q))
  {
    if IsDummyHeadquarters(g, p) then Point(p.y, p.x - 1) else p
  }

  /** `board(p)`: the piece stored for coordinate p. */
  function At(g: Cells, p: Point): (r: Piece)
    requires Wellformed(g) && InBounds(p)
    ensures r.kind != DummyHeadquarters
    ensures r == g[Index(Normalize(p))]
  {
    g[Index(Resolve(g, p))]
  }

  /** The piece the coordinate with raw index i stands for, read by index: a placeholder index
      reads the cell one to its left. */
  function AtIndex(g: Cells, i: int): Piece
    requires Wellformed(g) && 0 <= i < NumCells
  {
    if IsPlaceholderIndex(i) then g[i - 1] else g[i]
  }

  lemma AtIndexIsAt(g: Cells, i: int)
    requires Wellformed(g) && 0 <= i < NumCells
    ensures AtIndex(g, i) == At(g, PointOf(i))
  {
  }

  /** Cell (y, x) of a row-major scan has raw index row + x, where row is the index of (y, 0). */
  lemma CellIndex(g: Cells, y: int, x: int, row: int)
    requires Wellformed(g) && 0 <= y < Height && 0 <= x < Width && row == y * Width
    ensures InBounds(Point(y, x)) && Index(Point(y, x)) == row + x && PointOf(row + x) == Point(y, x)
    ensures AtIndex(g, row + x) == At(g, Point(y, x))
  {
  }

  /** `set_board(piece, p)`: writes the cell that p stands for. */
  function Store(g: Cells, p: Point, piece: Piece): (h: Cells)
    requires Wellformed(g) && InBounds(p)
    ensures |h| == NumCells && h == g[Index(Normalize(p)) := piece]
    ensures h[3] == g[3] && h[45] == g[45]
    ensures piece.kind != DummyHeadquarters ==> Wellformed(h)
  {
    g[Index(Resolve(g, p)) := piece]
  }

  lemma StoreThenAt(g: Cells, p: Point, piece: Piece, q: Point)
    requires Wellformed(g) && InBounds(p) && InBounds(q) && piece.kind != DummyHeadquarters
    ensures At(Store(g, p, piece), q) == if Normalize(q) == Normalize(p) then piece else At(g, q)
  {
    IndexIsInjective(Normalize(p), Normalize(q));
  }

  /** A store never creates a placeholder from a real piece and never overwrites one, so the
      placeholders found by Initialize stay exactly where they are. */
  lemma StoreKeepsPlaceholders(g: Cells, p: Point, piece: Piece, i: int)
    requires Wellformed(g) && InBounds(p) && piece.kind != DummyHeadquarters && 0 <= i < NumCells
    ensures Store(g, p, piece)[i].kind == DummyHeadquarters <==> IsPlaceholderIndex(i)
    ensures IsPlaceholderIndex(i) ==> Store(g, p, piece)[i] == g[i]
  {
  }

  /** The piece `Delete(p)` leaves behind: empty, no belief, owned by the side whose half p is in. */
  function DeletedPiece(p: Point): Piece {
    Piece(None, None, p.y / (Height / 2))
  }

  function Delete(g: Cells, p: Point): (h: Cells)
    requires Wellformed(g) && InBounds(p)
    ensures Wellformed(h)
    ensures At(h, p) == Piece(None, None, if p.y < 4 then 0 else 1)
  {
    Store(g, p, DeletedPiece(p))
  }

  /** `Swap(move)`: exchanges the pieces the two coordinates stand for. */
  function SwapCells(g: Cells, m: Move): (h: Cells)
    requires Wellformed(g) && InBounds(m.src) && InBounds(m.dest)
    ensures Wellformed(h)
  {
    Store(Store(g, m.src, At(g, m.dest)), m.dest, At(g, m.src))
  }

  lemma SwapExchanges(g: Cells, m: Move, q: Point)
    requires Wellformed(g) && InBounds(m.src) && InBounds(m.dest) && InBounds(q)
    ensures At(SwapCells(g, m), m.src) == At(g, m.dest)
    ensures At(SwapCells(g, m), m.dest) == At(g, m.src)
    ensures Normalize(q) != Normalize(m.src) && Normalize(q) != Normalize(m.dest) ==>
              At(SwapCells(g, m), q) == At(g, q)
  {
    var g1 := Store(g, m.src, At(g, m.dest));
    StoreThenAt(g, m.src, At(g, m.dest), m.src);
    StoreThenAt(g, m.src, At(g, m.dest), q);
    StoreThenAt(g1, m.dest, At(g, m.src), m.src);
    StoreThenAt(g1, m.dest, At(g, m.src), m.dest);
    StoreThenAt(g1, m.dest, At(g, m.src), q);
  }

  lemma SwapTwiceIsIdentity(g: Cells, m: Move)
    requires Wellformed(g) && InBounds(m.src) && InBounds(m.dest)
    ensures SwapCells(SwapCells(g, m), m) == g
  {
    var s, d := Index(Normalize(m.src)), Index(Normalize(m.dest));
    var h := SwapCells(SwapCells(g, m), m);
    assert h == g[s := g[s]][d := g[d]];
  }

  lemma SwapWithSelfOrAliasIsIdentity(g: Cells, m: Move)
    requires Wellformed(g) && InBounds(m.src) && InBounds(m.dest)
    requires Normalize(m.src) == Normalize(m.dest)
    ensures SwapCells(g, m) == g
  {
    var s := Index(Normalize(m.src));
    assert SwapCells(g, m) == g[s := g[s]];
  }

  /** The half a side owns: rows 0..3 for side 0, rows 4..7 for side 1. */
  predicate InHalf(p: Point, id: int) {
    InBounds(p) && p.y / (Height / 2) == id
  }

  /** The halves by row: rows 0..3 and rows 4..7. */
  lemma HalfRows(p: Point)
    requires InBounds(p)
    ensures InHalf(p, 0) <==> p.y < 4
    ensures InHalf(p, 1) <==> p.y >= 4
  {
  }

  /** The raw cells of a half: indices 0..23 for side 0 and 24..47 for side 1. */
  function Half(g: Cells, id: int): seq<Piece>
    requires |g| == NumCells && 0 <= id <= 1
  {
    g[24 * id .. 24 * id + 24]
  }

  lemma HalfIndex(p: Point, id: int)
    requires InHalf(p, id)
    ensures 0 <= id <= 1
    ensures 24 * id <= Index(p) < 24 * id + 24
    ensures InHalf(Normalize(p), id)
  {
  }

  lemma ExchangeKeepsMultiset(s: seq<Piece>, i: int, j: int)
    requires 0 <= i < |s| && 0 <= j < |s|
    ensures multiset(s[i := s[j]][j := s[i]]) == multiset(s)
  {
    if i != j {
      var t := s[i := s[j]];
      assert multiset(t) == multiset(s) - multiset{s[i]} + multiset{s[j]};
      assert t[j] == s[j];
    }
  }

  /** A swap between two coordinates of one half leaves the multiset of that half's cells, and
      every cell outside that half, unchanged. */
  lemma SwapWithinHalf(g: Cells, m: Move, id: int)
    requires Wellformed(g) && InHalf(m.src, id) && InHalf(m.dest, id)
    ensures 0 <= id <= 1
    ensures multiset(Half(SwapCells(g, m), id)) == multiset(Half(g, id))
    ensures Half(SwapCells(g, m), 1 - id) == Half(g, 1 - id)
  {
    var s, d := Index(Normalize(m.src)), Index(Normalize(m.dest));
    HalfIndex(m.src, id);
    HalfIndex(m.dest, id);
    assert SwapCells(g, m) == g[s := g[d]][d := g[s]];
    ExchangeWithinHalf(g, id, s, d);
    OtherHalfUnchanged(g, g[s := g[d]][d := g[s]], id, s, d);
  }

  lemma ExchangeWithinHalf(g: Cells, id: int, s: int, d: int)
    requires |g| == NumCells && 0 <= id <= 1 && 24 * id <= s < 24 * id + 24 && 24 * id <= d < 24 * id + 24
    ensures multiset(Half(g[s := g[d]][d := g[s]], id)) == multiset(Half(g, id))
  {
    var lo := 24 * id;
    var h := g[s := g[d]][d := g[s]];
    var gs := g[lo .. lo + 24];
    var hs := gs[s - lo := gs[d - lo]][d - lo := gs[s - lo]];
    assert forall k :: 0 <= k < 24 ==> Half(h, id)[k] == hs[k];
    assert Half(h, id) == hs;
    ExchangeKeepsMultiset(gs, s - lo, d - lo);
  }

  /** Rewriting two cells of half id leaves the other half as it was. */
  lemma OtherHalfUnchanged(g: Cells, h: Cells, id: int, s: int, d: int)
    requires |g| == NumCells && 0 <= id <= 1 && 24 * id <= s < 24 * id + 24 && 24 * id <= d < 24 * id + 24
    requires h == g[s := g[d]][d := g[s]]
    ensures Half(h, 1 - id) == Half(g, 1 - id)
  {
    var hs, gs := Half(h, 1 - id), Half(g, 1 - id);
    assert forall k :: 0 <= k < 24 ==> hs[k] == gs[k];
  }
}
