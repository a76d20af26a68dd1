// The search for a free tile: from a start cell a scan runs forward to the block's last cell and, if that
// finds nothing, a second scan runs backward. The backward scan tests y against x1, so it stops at
// (x1, x1) rather than at the block's first cell (x1, y1).

module TileSearch {
  import opened Options

  datatype Pos = Pos(x: int, y: int)

  datatype Block = Block(x1: int, y1: int, x2: int, y2: int) {
    predicate Valid() { x1 <= x2 && y1 <= y2 }
    function First(): Pos { Pos(x1, y1) }
    function Last(): Pos { Pos(x2, y2) }
    function Stop(): Pos { Pos(x1, x1) }
    predicate Column(p: Pos) { x1 <= p.x <= x2 }
    predicate Contains(p: Pos) { Column(p) && y1 <= p.y <= y2 }
  }

  /** Reading order: row by row, left to right. */
  predicate Before(p: Pos, q: Pos) {
    p.y < q.y || (p.y == q.y && p.x < q.x)
  }

  predicate UpTo(p: Pos, q: Pos) {
    p == q || Before(p, q)
  }

  /** Every cell from `p` up to but excluding `q` is used. */
  ghost predicate Full(b: Block, tiles: seq<Pos>, p: Pos, q: Pos) {
    forall c :: b.Column(c) && UpTo(p, c) && Before(c, q) ==> c in tiles
  }

  /** Every cell after `p` up to and including `q` is used. */
  ghost predicate FullBack(b: Block, tiles: seq<Pos>, p: Pos, q: Pos) {
    forall c :: b.Column(c) && Before(p, c) && UpTo(c, q) ==> c in tiles
  }

  /** The first free cell from `start` on, short of the last cell. */
  ghost predicate FoundForward(b: Block, tiles: seq<Pos>, start: Pos, p: Pos) {
    && b.Column(p) && UpTo(start, p) && Before(p, b.Last())
    && p !in tiles && Full(b, tiles, start, p)
  }

  /** The first free cell from `start` back, unless the stop cell comes first. */
  ghost predicate FoundBackward(b: Block, tiles: seq<Pos>, start: Pos, p: Pos) {
    && b.Column(p) && UpTo(p, start)
    && p !in tiles && FullBack(b, tiles, p, start)
    && !(UpTo(p, b.Stop()) && UpTo(b.Stop(), start))
  }

  /** What the search returns. */
  ghost predicate Finds(b: Block, tiles: seq<Pos>, start: Pos, r: Option<Pos>) {
    if Full(b, tiles, start, b.Last()) then
      match r
      case Some(p) => FoundBackward(b, tiles, start, p)
      case None => UpTo(b.Stop(), start) && FullBack(b, tiles, b.Stop(), start)
    else
      r.Some? && FoundForward(b, tiles, start, r.value)
  }

  function Succ(b: Block, p: Pos): Pos {
    if p.x < b.x2 then Pos(p.x + 1, p.y) else Pos(b.x1, p.y + 1)
  }

  function Pred(b: Block, p: Pos): Pos {
    if p.x > b.x1 then Pos(p.x - 1, p.y) else Pos(b.x2, p.y - 1)
  }

  /** Both scans terminate for every block, every list of tiles and every start cell: the forward scan runs
      out of cells, and the backward scan, where it misses its stop cell, runs out of used tiles. */
  method FindUnusedTile(b: Block, tiles: seq<Pos>, start: Pos) returns (r: Option<Pos>)
    requires b.Valid() && b.Contains(start)
    ensures Finds(b, tiles, start, r)
  {
    var right := start;
    while !(right.x == b.x2 && right.y == b.y2)
      invariant b.Contains(right) && UpTo(start, right)
      invariant Full(b, tiles, start, right)
      decreases b.y2 - right.y, b.x2 - right.x
    {
      if right !in tiles {
        return Some(right);
      }
      assert forall c :: b.Column(c) && Before(c, Succ(b, right)) ==> UpTo(c, right);
      right := Succ(b, right);
    }

    var left := start;
    ghost var unseen := set p | p in tiles;
    while !(left.x == b.x1 && left.y == b.x1)
      invariant b.Column(left) && UpTo(left, start)
      invariant FullBack(b, tiles, left, start)
      invariant !(Before(left, b.Stop()) && UpTo(b.Stop(), start))
      invariant forall p <- tiles :: b.Column(p) && UpTo(p, left) ==> p in unseen
      decreases unseen
    {
      if left !in tiles {
        return Some(left);
      }
      assert forall c :: b.Column(c) && Before(Pred(b, left), c) ==> UpTo(left, c);
      unseen := unseen - {left};
      left := Pred(b, left);
    }
    return None;
  }

  /** The search has one result. */
  lemma FindsOne(b: Block, tiles: seq<Pos>, start: Pos, r: Option<Pos>, r': Option<Pos>)
    requires b.Valid() && b.Contains(start)
    requires Finds(b, tiles, start, r) && Finds(b, tiles, start, r')
    ensures r == r'
  {
  }

  ghost predicate StaysInside(b: Block) {
    forall tiles: seq<Pos>, start: Pos, p: Pos ::
      b.Contains(start) && Finds(b, tiles, start, Some(p)) ==> b.Contains(p)
  }

  /** The backward scan stops where the block begins. */
  predicate WellPlaced(b: Block) {
    b.x1 == b.y1 || (b.x1 == b.x2 && b.y1 == b.x1 + 1)
  }

  /** The search never leaves the block, whatever is used and wherever it starts, if and only if the block
      begins on the diagonal, or just below it in a single column. */
  lemma InsideExactly(b: Block)
    requires b.Valid()
    ensures StaysInside(b) <==> WellPlaced(b)
  {
    if WellPlaced(b) {
      forall tiles: seq<Pos>, start: Pos, p: Pos | b.Contains(start) && Finds(b, tiles, start, Some(p))
        ensures b.Contains(p)
      {
      }
    } else {
      var tiles := AllCells(b);
      var p := Pos(b.x2, b.y1 - 1);
      assert forall c :: b.Column(c) && Before(p, c) && UpTo(c, b.First()) ==> c == b.First();
      assert FoundBackward(b, tiles, b.First(), p);
      assert Finds(b, tiles, b.First(), Some(p)) && !b.Contains(p);
    }
  }

  /** A full block from (0, 5) to (3, 8), searched from its first cell, yields the cell (3, 4) above it. */
  lemma LeavesTheBlock(tiles: seq<Pos>)
    requires forall c :: c in tiles <==> Block(0, 5, 3, 8).Contains(c)
    ensures Finds(Block(0, 5, 3, 8), tiles, Pos(0, 5), Some(Pos(3, 4))) && !Block(0, 5, 3, 8).Contains(Pos(3, 4))
  {
    var b := Block(0, 5, 3, 8);
    assert forall c :: b.Column(c) && Before(Pos(3, 4), c) && UpTo(c, b.First()) ==> c == b.First();
  }

  /** A list of all cells of a block. */
  ghost function AllCells(b: Block): (cells: seq<Pos>)
    ensures forall c :: c in cells <==> b.Contains(c)
  {
    var all := set x: int, y: int | b.x1 <= x <= b.x2 && b.y1 <= y <= b.y2 :: Pos(x, y);
    Listed(all)
  }

  ghost function Listed(s: set<Pos>): (l: seq<Pos>)
    ensures forall p :: p in l <==> p in s
  {
    if s == {} then []
    else
      var p :| p in s;
      [p] + Listed(s - {p})
  }

  /** The cells one of the scans looks at: forward all but the last, backward all but the first. */
  predicate LookedAt(b: Block, start: Pos, c: Pos) {
    b.Contains(c) && ((UpTo(start, c) && c != b.Last()) || (UpTo(c, start) && c != b.First()))
  }

  /** On a block beginning on the diagonal the search fails exactly when every cell it looks at is used; so
      a failure proves every cell used except possibly the two corners it never tests. */
  lemma FailsExactly(b: Block, tiles: seq<Pos>, start: Pos)
    requires b.Valid() && b.Contains(start) && b.x1 == b.y1
    ensures Finds(b, tiles, start, None) <==> forall c :: LookedAt(b, start, c) ==> c in tiles
    ensures Finds(b, tiles, start, None) ==>
      forall c :: b.Contains(c) && c != b.First() && c != b.Last() ==> c in tiles
  {
  }

  /** On a block beginning on the diagonal every result is a free cell of the block. */
  lemma ResultIsFree(b: Block, tiles: seq<Pos>, start: Pos, p: Pos)
    requires b.Valid() && b.Contains(start) && b.x1 == b.y1
    requires Finds(b, tiles, start, Some(p))
    ensures b.Contains(p) && p !in tiles
  {
  }

  /** The untested corners are a real gap: on the shipped 16 by 16 block, a search from either corner with
      only the opposite corner free reports that nothing is free. */
  lemma CornersAreMissed(tiles: seq<Pos>)
    requires forall c :: c in tiles <==> Block(0, 0, 15, 15).Contains(c) && c != Pos(15, 15)
    ensures Finds(Block(0, 0, 15, 15), tiles, Pos(0, 0), None)
  {
  }
}
