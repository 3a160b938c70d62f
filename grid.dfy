/** The program space: a rectangular grid of `usize` cells built from source
    text, read with toroidal wrap-around and written without it; and the
    instruction pointer's location, which moves one unit step at a time. */
module Grid {
  import opened Ints
  import opened Text
  import opened Code

  /** The blank cell: the code of ' '. */
  const BLANK: nat := 32

  function Width(g: seq<seq<nat>>): nat { if g == [] then 0 else |g[0]| }

  /** Every row is as long as the first, every cell is a `usize`, and both
      dimensions fit an `i64` (the engine casts them). */
  ghost predicate WellFormed(g: seq<seq<nat>>)
  {
    && (forall y :: 0 <= y < |g| ==> |g[y]| == Width(g))
    && (forall y, x :: 0 <= y < |g| && 0 <= x < |g[y]| ==> IsUsize(g[y][x]))
    && |g| <= I64_MAX && Width(g) <= I64_MAX
  }

  // ---------------------------------------------------------------------
  // Construction from source text

  /** The longest line, counted in bytes as `str::len` counts. */
  function MaxByteLen(lines: seq<string>): (m: nat)
    ensures forall k :: 0 <= k < |lines| ==> |lines[k]| <= ByteLen(lines[k]) <= m
    ensures lines == [] ==> m == 0
    ensures lines != [] ==> exists k :: 0 <= k < |lines| && ByteLen(lines[k]) == m
  {
    if lines == [] then 0
    else
      var m := MaxByteLen(lines[..|lines| - 1]);
      var len := ByteLen(lines[|lines| - 1]);
      if m < len then len else m
  }

  /** A row of w cells whose first k hold the codes of the line's first k
      characters and whose others are blank. */
  function PartialRow(line: string, w: nat, k: nat): (row: seq<nat>)
    ensures |row| == w
  {
    seq(w, x requires 0 <= x < w => if x < k && x < |line| then line[x] as nat else BLANK)
  }

  /** A row of w blanks. */
  function Blank(w: nat): seq<nat> { seq(w, _ => BLANK) }

  lemma BlankRow(line: string, w: nat)
    ensures PartialRow(line, w, 0) == Blank(w)
  {
  }

  function Row(line: string, w: nat): seq<nat>
  {
    PartialRow(line, w, |line|)
  }

  /** The grid a list of lines lays out: one row per line, as wide as the
      longest line, short lines padded with blanks. */
  function Layout(lines: seq<string>): (g: seq<seq<nat>>)
    ensures |g| == |lines|
  {
    var w := MaxByteLen(lines);
    seq(|lines|, y requires 0 <= y < |lines| => Row(lines[y], w))
  }

  lemma LayoutRows(lines: seq<string>, g: seq<seq<nat>>)
    requires |g| == |lines|
    requires forall r :: 0 <= r < |g| ==> g[r] == Row(lines[r], MaxByteLen(lines))
    ensures g == Layout(lines)
  {
  }

  /** The grid of a source text: height is the number of lines, width the
      longest line, cell (x, y) the code of character x of line y when the
      line has one, and blank otherwise. */
  lemma LayoutCells(code: string)
    ensures var g := Layout(Lines(code));
      && |g| == |Lines(code)|
      && Width(g) == MaxByteLen(Lines(code))
      && (forall y :: 0 <= y < |g| ==> |g[y]| == Width(g))
      && (forall y, x :: 0 <= y < |g| && 0 <= x < Width(g) ==>
            g[y][x] == if x < |Lines(code)[y]| then Lines(code)[y][x] as nat else BLANK)
  {
  }

  /** The source text fits a Rust `String` (at most `isize::MAX` bytes), so the
      laid-out grid is well formed. */
  lemma {:induction false} LayoutWellFormed(code: string)
    requires ByteLen(code) <= I64_MAX
    ensures WellFormed(Layout(Lines(code)))
  {
    var lines := Lines(code);
    var g := Layout(lines);
    if lines != [] {
      var k :| 0 <= k < |lines| && ByteLen(lines[k]) == MaxByteLen(lines);
      assert Width(g) == MaxByteLen(lines) <= ByteLen(code);
    }
    forall y, x | 0 <= y < |g| && 0 <= x < |g[y]|
      ensures IsUsize(g[y][x])
    {
      if x < |lines[y]| {
        assert g[y][x] == lines[y][x] as nat;
      }
    }
  }

  // ---------------------------------------------------------------------
  // Movement and wrap-around

  /** The unit step of a direction: North is up (y decreases). */
  function Delta(d: Direction): (step: (int, int))
    ensures (if step.0 < 0 then -step.0 else step.0) + (if step.1 < 0 then -step.1 else step.1) == 1
  {
    match d
    case North => (0, -1)
    case East => (1, 0)
    case South => (0, 1)
    case West => (-1, 0)
  }

  /** `constrain` on one coordinate does not overflow or divide by zero. */
  predicate CanWrap(c: int, d: nat) { 0 < d <= I64_MAX && IsI64(c + d) }

  /** `constrain` on one coordinate: `(c + d) % d` with Rust's remainder. A
      coordinate of at least -d lands in [0, d); one already there is kept. */
  function Wrap(c: int, d: nat): (r: int)
    requires CanWrap(c, d)
    ensures 0 <= c + d ==> 0 <= r < d
    ensures 0 <= c < d ==> r == c
    ensures c < 0 <= c + d ==> r == c + d
    ensures c + d < 0 ==> 0 < r + d && r <= 0
  {
    assert 0 <= c < d ==> (c + d) % d == c by {
      if 0 <= c < d { ShiftMod(c, d); }
    }
    assert c < 0 <= c + d ==> Rem(c + d, d) == c + d by {
      if c < 0 <= c + d { RemSmall(c + d, d); }
    }
    Rem(c + d, d)
  }

  lemma ShiftMod(c: nat, d: nat)
    requires c < d
    ensures (c + d) % d == c
  {
    assert c + d == 1 * d + c;
  }

  /** A coordinate one step below zero wraps to the last column or row. */
  lemma WrapMinusOne(d: nat)
    requires 0 < d <= I64_MAX
    ensures Wrap(-1, d) == d - 1
  {
  }

  /** A coordinate one step past the end wraps to zero. */
  lemma WrapPastEnd(d: nat)
    requires 0 < d && 2 * d <= I64_MAX
    ensures Wrap(d, d) == 0
  {
    assert (d + d) % d == 0 by { assert d + d == 2 * d; }
  }

  lemma FillStep(line: string, w: nat, x: nat)
    requires x < |line| <= w
    ensures PartialRow(line, w, x)[x := line[x] as nat] == PartialRow(line, w, x + 1)
  {
  }

  /** The grid can be read at (x, y): it is not empty and both coordinates
      wrap to non-negative indices. */
  ghost predicate CanFetch(g: seq<seq<nat>>, x: int, y: int)
  {
    && g != [] && CanWrap(x, Width(g)) && CanWrap(y, |g|)
    && 0 <= Wrap(x, Width(g)) && 0 <= Wrap(y, |g|)
  }

  /** The cell `get` returns at (x, y). */
  ghost function Fetch(g: seq<seq<nat>>, x: int, y: int): (v: nat)
    requires WellFormed(g) && CanFetch(g, x, y)
    ensures IsUsize(v)
  {
    g[Wrap(y, |g|)][Wrap(x, Width(g))]
  }

  /** Reading is toroidal: for coordinates of at least -w and -h, however
      large, `get` reads the cell at ((x + w) mod w, (y + h) mod h). */
  lemma FetchWraps(g: seq<seq<nat>>, x: int, y: int)
    requires WellFormed(g) && g != [] && Width(g) > 0
    requires CanWrap(x, Width(g)) && CanWrap(y, |g|)
    requires 0 <= x + Width(g) && 0 <= y + |g|
    ensures CanFetch(g, x, y)
    ensures Fetch(g, x, y) == g[(y + |g|) % |g|][(x + Width(g)) % Width(g)]
  {
  }

  /** In particular `get(-1, y)` reads the last column. */
  lemma FetchMinusOne(g: seq<seq<nat>>, y: nat)
    requires WellFormed(g) && y < |g| && Width(g) > 0
    requires 2 * Width(g) <= I64_MAX && 2 * |g| <= I64_MAX
    ensures CanFetch(g, -1, y) && CanFetch(g, Width(g) - 1, y)
    ensures Fetch(g, -1, y) == Fetch(g, Width(g) - 1, y) == g[y][Width(g) - 1]
  {
  }

  /** The grid with the cell at column x of row y replaced by v. */
  function Written(g: seq<seq<nat>>, x: nat, y: nat, v: nat): (r: seq<seq<nat>>)
    requires y < |g| && x < |g[y]|
    ensures |r| == |g| && forall j :: 0 <= j < |g| ==> |r[j]| == |g[j]|
    ensures r[y][x] == v
    ensures forall j, i :: 0 <= j < |g| && 0 <= i < |g[j]| && (j, i) != (y, x) ==> r[j][i] == g[j][i]
  {
    var row: seq<nat> := g[y][x := v];
    g[y := row]
  }

  /** Writing a `usize` inside the grid keeps it well formed, with the same dimensions. */
  lemma WrittenWellFormed(g: seq<seq<nat>>, x: nat, y: nat, v: nat)
    requires WellFormed(g) && y < |g| && x < Width(g) && IsUsize(v)
    ensures WellFormed(Written(g, x, y, v))
    ensures |Written(g, x, y, v)| == |g| && Width(Written(g, x, y, v)) == Width(g)
  {
  }

  // ---------------------------------------------------------------------
  // The classes

  /** The instruction pointer's location: a pair of `i64` coordinates. */
  class Location {
    var x: int
    var y: int

    constructor (x: int, y: int)
      ensures this.x == x && this.y == y
    {
      this.x := x;
      this.y := y;
    }

    /** Add the direction's unit step, without wrapping. */
    method Go(direction: Direction)
      requires IsI64(x + Delta(direction).0) && IsI64(y + Delta(direction).1)
      modifies this
      ensures x == old(x) + Delta(direction).0 && y == old(y) + Delta(direction).1
    {
      var delta := Delta(direction);
      x := x + delta.0;
      y := y + delta.1;
    }

    /** Wrap both coordinates into a w by h grid. */
    method Constrain(w: nat, h: nat)
      requires CanWrap(x, w) && CanWrap(y, h)
      modifies this
      ensures x == Wrap(old(x), w) && y == Wrap(old(y), h)
      ensures 0 <= old(x) + w && 0 <= old(y) + h ==> 0 <= x < w && 0 <= y < h
    {
      x := Rem(x + w, w);
      y := Rem(y + h, h);
    }
  }

  /** Establish the size of the grid: the longest line in bytes, and the
      number of lines. */
  method Measure(lines: seq<string>) returns (maxLen: nat, maxHeight: nat)
    ensures maxLen == MaxByteLen(lines) && maxHeight == |lines|
  {
    maxLen := 0;
    maxHeight := 0;
    for i := 0 to |lines|
      invariant maxLen == MaxByteLen(lines[..i]) && maxHeight == i
    {
      assert lines[..i + 1][..i] == lines[..i];
      if maxLen < ByteLen(lines[i]) {
        maxLen := ByteLen(lines[i]);
      }
      maxHeight := maxHeight + 1;
    }
    assert lines[..|lines|] == lines;
  }

  /** Write the codes of a line's characters, left to right, into row y of
      the grid, which is blank: the row becomes the line's row. */
  method WriteLine(grid: seq<seq<nat>>, y: nat, line: string, w: nat) returns (r: seq<seq<nat>>)
    requires y < |grid| && grid[y] == Blank(w) && |line| <= w
    ensures r == grid[y := Row(line, w)]
  {
    BlankRow(line, w);
    r := grid;
    for x := 0 to |line|
      invariant r == grid[y := PartialRow(line, w, x)]
    {
      var cell: nat := line[x] as nat;
      var row: seq<nat> := r[y][x := cell];
      FillStep(line, w, x);
      r := r[y := row];
    }
  }

  class Space {
    var points: seq<seq<nat>>

    ghost predicate Valid()
      reads this
    {
      WellFormed(points)
    }

    /** Lay the source text out: size the grid from the lines, fill it with
        blanks, then write each line's characters into its row. */
    constructor (code: string)
      requires ByteLen(code) <= I64_MAX
      ensures Valid()
      ensures points == Layout(Lines(code))
    {
      var lines := Lines(code);
      var maxLen, maxHeight := Measure(lines);
      var grid: seq<seq<nat>> := seq(maxHeight, _ => Blank(maxLen));
      for y := 0 to |lines|
        invariant |grid| == maxHeight
        invariant forall r :: 0 <= r < y ==> grid[r] == Row(lines[r], maxLen)
        invariant forall r :: y <= r < maxHeight ==> grid[r] == Blank(maxLen)
      {
        grid := WriteLine(grid, y, lines[y], maxLen);
      }
      LayoutRows(lines, grid);
      points := grid;
      LayoutWellFormed(code);
    }

    /** The grid's width and height; every row has the width. */
    function Dims(): (dims: (nat, nat))
      requires Valid() && points != []
      reads this
      ensures dims.1 == |points|
      ensures forall y :: 0 <= y < |points| ==> |points[y]| == dims.0
    {
      (|points[0]|, |points|)
    }

    /** Read the cell at a location, wrapped into the grid. */
    method Get(at: Location) returns (v: nat)
      requires Valid() && CanFetch(points, at.x, at.y)
      ensures v == Fetch(points, at.x, at.y)
      ensures IsUsize(v)
    {
      var loc := new Location(at.x, at.y);
      var (w, h) := Dims();
      loc.Constrain(w, h);
      v := points[I64ToUsize(loc.y)][I64ToUsize(loc.x)];
    }

    /** Write a cell at a location as it stands: nothing is wrapped, so the
        location must already lie inside the grid. */
    method Set(value: nat, at: Location)
      requires Valid() && IsUsize(value) && IsI64(at.x) && IsI64(at.y)
      requires I64ToUsize(at.y) < |points| && I64ToUsize(at.x) < Width(points)
      modifies this
      ensures Valid()
      ensures points == Written(old(points), I64ToUsize(at.x), I64ToUsize(at.y), value)
      ensures |points| == |old(points)| && Width(points) == Width(old(points))
      ensures points[I64ToUsize(at.y)][I64ToUsize(at.x)] == value
      ensures forall y, x ::
                0 <= y < |points| && 0 <= x < |points[y]| && (y, x) != (I64ToUsize(at.y), I64ToUsize(at.x))
                ==> points[y][x] == old(points)[y][x]
    {
      var col, row := I64ToUsize(at.x), I64ToUsize(at.y);
      var updated: seq<nat> := points[row][col := value];
      points := points[row := updated];
    }
  }
}
