/** The AI's formation loading (LoadFormationRandomly): a formation is 24 ranks read row by row
    from the AI's own point of view, rows 0..3 and columns 0..5, and each is written with
    `set_board` at the point mirrored onto the AI's side (unchanged for side 0, turned half a
    turn for side 1). */
module Formation {
  import opened Points
  import opened Pieces
  import opened Grid

  /** The number of values in a formation: half the board. */
  const FormationSize: int := NumCells / 2

  /** Template cell k of a formation, seen from its owner: row k / 6, column k % 6. */
  function TemplatePoint(k: int): (p: Point)
    requires 0 <= k < FormationSize
    ensures InHalf(p, 0) && Index(p) == k
  {
    Point(k / Width, k % Width)
  }

  /** Row y, column x of the template is its cell y * 6 + x. */
  lemma TemplateAt(y: int, x: int)
    requires 0 <= y < Height / 2 && 0 <= x < Width
    ensures TemplatePoint(y * Width + x) == Point(y, x)
  {
    var k := y * Width + x;
    assert k / Width == y && k % Width == x by {
      if y == 0 { assert k == x; }
      else if y == 1 { assert k == 6 + x; }
      else if y == 2 { assert k == 12 + x; }
      else { assert k == 18 + x; }
    }
  }

  /** Where side id's AI puts template point p. */
  function Mirror(id: int, p: Point): Point {
    if id == 0 then p else Point(Height - 1 - p.y, Width - 1 - p.x)
  }

  lemma MirrorFacts(id: int, k: int)
    requires 0 <= id <= 1 && 0 <= k < FormationSize
    ensures InHalf(Mirror(id, TemplatePoint(k)), id)
    ensures Index(Mirror(id, TemplatePoint(k))) == if id == 0 then k else NumCells - 1 - k
  {
  }

  /** The raw cell template cell k of side id is written to: the cell of its mirrored point,
      moved one column left when that is the headquarters placeholder. */
  function Slot(id: int, k: int): (w: int)
    requires 0 <= id <= 1 && 0 <= k < FormationSize
    ensures 0 <= w < NumCells && !IsPlaceholderIndex(w)
  {
    var j := if id == 0 then k else NumCells - 1 - k;
    if IsPlaceholderIndex(j) then j - 1 else j
  }

  lemma SlotIsIndex(id: int, k: int)
    requires 0 <= id <= 1 && 0 <= k < FormationSize
    ensures InBounds(Mirror(id, TemplatePoint(k)))
    ensures Slot(id, k) == Index(Normalize(Mirror(id, TemplatePoint(k))))
  {
    MirrorFacts(id, k);
  }

  /** A value the loader accepts: one that `IsPiece` holds for, whoever owns the piece. */
  predicate IsRank(k: Kind) {
    Piece(k, None, 0).IsPiece()
  }

  /** A formation every value of which is a rank. */
  predicate IsFormation(f: seq<int>) {
    |f| == FormationSize && forall k :: 0 <= k < FormationSize ==> IsRank(f[k])
  }

  /** The raw cell of side id's half that both template cells 2 and 3 are written to: in each
      case one of the two is the headquarters placeholder, which `set_board` redirects. */
  function SharedCell(id: int): int {
    if id == 0 then 2 else NumCells - 4
  }

  /** The template cell written last to raw cell j among template cells 0..n-1, or -1 when none
      of them is. */
  function WriterOf(id: int, j: int, n: int): int
    requires 0 <= id <= 1 && 0 <= j < NumCells
  {
    if !(24 * id <= j < 24 * id + 24) || IsPlaceholderIndex(j) then -1
    else if j == SharedCell(id) then (if 4 <= n then 3 else if n == 3 then 2 else -1)
    else
      var k := if id == 0 then j else NumCells - 1 - j;
      if k < n then k else -1
  }

  lemma WriterRange(id: int, j: int, n: int)
    requires 0 <= id <= 1 && 0 <= j < NumCells && 0 <= n <= FormationSize
    ensures -1 <= WriterOf(id, j, n) < n
    ensures WriterOf(id, j, n) >= 0 ==> !IsPlaceholderIndex(j)
  {
  }

  /** The board after template cells 0..n-1 of formation f have been written for side id, one
      `set_board` after the other. */
  function Partial(g: Cells, f: seq<int>, id: int, n: int): (h: Cells)
    requires |g| == NumCells && |f| == FormationSize && 0 <= id <= 1 && 0 <= n <= FormationSize
    ensures |h| == NumCells
  {
    if n == 0 then g
    else
      Partial(g, f, id, n - 1)[Slot(id, n - 1) := Piece(f[n - 1], None, id)]
  }

  /** The board after the whole formation f has been written for side id. */
  function Layout(g: Cells, f: seq<int>, id: int): Cells
    requires |g| == NumCells && |f| == FormationSize && 0 <= id <= 1
  {
    Partial(g, f, id, FormationSize)
  }

  /** Before any template cell is written the board is as it was. */
  lemma PartialStart(g: Cells, f: seq<int>, id: int)
    requires |g| == NumCells && |f| == FormationSize && 0 <= id <= 1
    ensures Partial(g, f, id, 0) == g
  {
  }

  /** Writing template cell n of the formation at its mirrored point extends the partial
      layout by one cell, and a layout of ranks keeps the placeholders in place. */
  lemma PartialStep(g: Cells, f: seq<int>, id: int, n: int)
    requires Wellformed(g) && |f| == FormationSize && 0 <= id <= 1 && 0 <= n < FormationSize
    requires forall k :: 0 <= k <= n ==> IsRank(f[k])
    ensures Wellformed(Partial(g, f, id, n))
    ensures Store(Partial(g, f, id, n), Mirror(id, TemplatePoint(n)), Piece(f[n], None, id)) == Partial(g, f, id, n + 1)
  {
    PartialWellformed(g, f, id, n);
    SlotIsIndex(id, n);
  }

  lemma {:induction false} PartialWellformed(g: Cells, f: seq<int>, id: int, n: int)
    requires Wellformed(g) && |f| == FormationSize && 0 <= id <= 1 && 0 <= n <= FormationSize
    requires forall k :: 0 <= k < n ==> IsRank(f[k])
    ensures Wellformed(Partial(g, f, id, n))
  {
    if n > 0 {
      PartialWellformed(g, f, id, n - 1);
      SlotIsIndex(id, n - 1);
      var p := Mirror(id, TemplatePoint(n - 1));
      assert Partial(g, f, id, n) == Store(Partial(g, f, id, n - 1), p, Piece(f[n - 1], None, id));
    }
  }

  /** Template cell n is the last writer of the raw cell its mirrored point stands for, and of
      no other cell. */
  lemma WriterStep(id: int, n: int, j: int)
    requires 0 <= id <= 1 && 0 <= n < FormationSize && 0 <= j < NumCells
    ensures WriterOf(id, j, n + 1) == if j == Slot(id, n) then n else WriterOf(id, j, n)
  {
    MirrorFacts(id, n);
  }

  /** Once the whole formation is written, the last writer of template cell k's raw cell is k
      itself, except that cell 3 overwrites cell 2. */
  lemma SlotWriter(id: int, k: int)
    requires 0 <= id <= 1 && 0 <= k < FormationSize
    ensures WriterOf(id, Slot(id, k), FormationSize) == if k == 2 then 3 else k
  {
  }

  /** Every raw cell of a partial layout holds the piece of its last writer, or its old piece
      when none of the template cells written so far stands for it. */
  lemma {:induction false} PartialWriters(g: Cells, f: seq<int>, id: int, n: int, j: int)
    requires |g| == NumCells && |f| == FormationSize && 0 <= id <= 1 && 0 <= n <= FormationSize && 0 <= j < NumCells
    ensures -1 <= WriterOf(id, j, n) < n
    ensures Partial(g, f, id, n)[j] == if WriterOf(id, j, n) >= 0 then Piece(f[WriterOf(id, j, n)], None, id) else g[j]
  {
    WriterRange(id, j, n);
    if n > 0 {
      PartialWriters(g, f, id, n - 1, j);
      WriterStep(id, n - 1, j);
    }
  }

  /** What the loaded formation looks like from side id: at the mirrored point of every template
      cell stands that cell's rank, owned by side id and with no belief, except that template
      cell 2 shows the rank of cell 3 (the two share the headquarters); the other half is as it
      was. */
  lemma LayoutSeenFromSide(g: Cells, f: seq<int>, id: int, k: int)
    requires Wellformed(g) && |f| == FormationSize && 0 <= id <= 1 && 0 <= k < FormationSize
    requires forall k :: 0 <= k < FormationSize ==> IsRank(f[k])
    ensures Wellformed(Layout(g, f, id))
    ensures At(Layout(g, f, id), Mirror(id, TemplatePoint(k))) == Piece(f[if k == 2 then 3 else k], None, id)
    ensures Half(Layout(g, f, id), 1 - id) == Half(g, 1 - id)
  {
    PartialWellformed(g, f, id, FormationSize);
    SlotIsIndex(id, k);
    var h := Layout(g, f, id);
    var p := Normalize(Mirror(id, TemplatePoint(k)));
    PartialWriters(g, f, id, FormationSize, Index(p));
    SlotWriter(id, k);
    var lo := 24 * (1 - id);
    forall j | lo <= j < lo + 24
      ensures h[j] == g[j]
    {
      PartialWriters(g, f, id, FormationSize, j);
    }
    assert Half(h, 1 - id) == Half(g, 1 - id);
  }
}
