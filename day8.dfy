// Day 8: a forest is a grid of tree heights, one digit per tree. A tree is
// visible when, in at least one of the four directions, every tree between
// it and the edge is shorter. A tree's scenic score multiplies how many trees
// can be seen from it looking up, down, left and right.
//
// The visibility test is computed from four tables holding, for each cell,
// the tallest tree strictly to its left, right, above and below; the right,
// up and down tables are the left one applied to the flipped or transposed
// grid.

module Day8 {
  import opened Text
  import opened Seqs

  /** A grid stored row by row; rows need not have equal lengths. */
  type Grid<T> = seq<seq<T>>

  // ---------------------------------------------------------------------
  // Reading the forest

  /** Every character of every line is a decimal digit; any other character
      makes `to_digit(10).unwrap()` panic. */
  predicate Readable(lines: seq<string>)
  {
    forall i | 0 <= i < |lines| :: AllDigits(lines[i])
  }

  /** Every height is a single digit. */
  predicate DigitGrid(g: Grid<nat>)
  {
    forall r, c | 0 <= r < |g| && 0 <= c < |g[r]| :: g[r][c] < 10
  }

  /** `Forest::from_str`: one row per line, one height per character. */
  function ParseForest(lines: seq<string>): (g: Grid<nat>)
    requires Readable(lines)
    ensures |g| == |lines| && DigitGrid(g)
    ensures forall r | 0 <= r < |g| :: |g[r]| == |lines[r]|
  {
    seq(|lines|, r requires 0 <= r < |lines| =>
      seq(|lines[r]|, c requires 0 <= c < |lines[r]| => DigitValue(lines[r][c])))
  }

  /** The forest written back as lines of digits. */
  function Render(g: Grid<nat>): (lines: seq<string>)
    requires DigitGrid(g)
    ensures Readable(lines)
  {
    seq(|g|, r requires 0 <= r < |g| =>
      seq(|g[r]|, c requires 0 <= c < |g[r]| => DigitChar(g[r][c])))
  }

  lemma ParseRender(g: Grid<nat>)
    requires DigitGrid(g)
    ensures ParseForest(Render(g)) == g
  {
    var p := ParseForest(Render(g));
    forall r | 0 <= r < |g|
      ensures p[r] == g[r]
    {
      assert forall c | 0 <= c < |g[r]| :: p[r][c] == g[r][c];
    }
  }

  lemma RenderParse(lines: seq<string>)
    requires Readable(lines)
    ensures Render(ParseForest(lines)) == lines
  {
    var q := Render(ParseForest(lines));
    forall r | 0 <= r < |lines|
      ensures q[r] == lines[r]
    {
      assert forall c | 0 <= c < |lines[r]| :: q[r][c] == lines[r][c];
    }
  }

  // ---------------------------------------------------------------------
  // Rows, columns, flipping and transposing

  /** The first row is not empty and no row is shorter than it: what
      `transposed` needs, since it reads `grid[0][0]` and every cell of the
      first row's width. */
  predicate HasWidth<T>(g: Grid<T>)
  {
    |g| > 0 && |g[0]| > 0 && forall r | 0 <= r < |g| :: |g[r]| >= |g[0]|
  }

  /** Every row has the first row's length. */
  predicate Rectangular<T>(g: Grid<T>)
  {
    HasWidth(g) && forall r | 0 <= r < |g| :: |g[r]| == |g[0]|
  }

  /** Every row has a cell in column `c`. */
  predicate HasColumn<T>(g: Grid<T>, c: nat)
  {
    forall r | 0 <= r < |g| :: c < |g[r]|
  }

  /** `Forest::row`. */
  function Row<T>(g: Grid<T>, r: nat): (row: seq<T>)
    requires r < |g|
    ensures |row| == |g[r]| && forall c | 0 <= c < |row| :: row[c] == g[r][c]
  {
    g[r]
  }

  /** `Forest::col`: cell `c` of every row, top to bottom. */
  function Column<T>(g: Grid<T>, c: nat): (col: seq<T>)
    requires HasColumn(g, c)
    ensures |col| == |g|
  {
    seq(|g|, r requires 0 <= r < |g| => g[r][c])
  }

  /** `Forest::flipped`: every row reversed, so that cell `c` of a row holds
      what was `c` places from that row's right end. */
  function Flipped<T>(g: Grid<T>): (f: Grid<T>)
    ensures |f| == |g|
    ensures forall r | 0 <= r < |g| ::
      |f[r]| == |g[r]| && forall c | 0 <= c < |g[r]| :: f[r][c] == g[r][|g[r]| - 1 - c]
  {
    seq(|g|, r requires 0 <= r < |g| => Reverse(g[r]))
  }

  lemma FlippedTwice<T>(g: Grid<T>)
    ensures Flipped(Flipped(g)) == g
  {
    var f := Flipped(Flipped(g));
    forall r | 0 <= r < |g|
      ensures f[r] == g[r]
    {
      assert forall c | 0 <= c < |g[r]| :: f[r][c] == g[r][c];
    }
  }

  /** The transposed grid: row `c` of the result is column `c` of `g`, over
      the first row's width. */
  function Transpose<T>(g: Grid<T>): (t: Grid<T>)
    requires HasWidth(g)
    ensures |t| == |g[0]| && Rectangular(t)
    ensures forall c | 0 <= c < |t| :: |t[c]| == |g|
    ensures forall c, r | 0 <= c < |t| && 0 <= r < |g| :: t[c][r] == g[r][c]
  {
    seq(|g[0]|, c requires 0 <= c < |g[0]| =>
      seq(|g|, r requires 0 <= r < |g| => g[r][c]))
  }

  lemma TransposeTwice<T>(g: Grid<T>)
    requires Rectangular(g)
    ensures Transpose(Transpose(g)) == g
  {
    var t := Transpose(Transpose(g));
    forall r | 0 <= r < |g|
      ensures t[r] == g[r]
    {
      assert forall c | 0 <= c < |g[r]| :: t[r][c] == g[r][c];
    }
  }

  /** Row `c` of the transposed grid is column `c`. */
  lemma TransposeRowIsColumn<T>(g: Grid<T>, c: nat)
    requires HasWidth(g) && c < |g[0]|
    ensures HasColumn(g, c) && Transpose(g)[c] == Column(g, c)
  {
  }

  /** `Forest::transposed`: a fresh `cols x rows` grid filled cell by cell. */
  method Transposed<T>(g: Grid<T>) returns (t: Grid<T>)
    requires HasWidth(g)
    ensures t == Transpose(g)
  {
    var rows, cols := |g|, |g[0]|;
    t := seq(cols, _ => seq(rows, _ => g[0][0]));
    for r := 0 to rows
      invariant |t| == cols && forall c | 0 <= c < cols :: |t[c]| == rows
      invariant forall c, r' | 0 <= c < cols && 0 <= r' < r :: t[c][r'] == g[r'][c]
    {
      for c := 0 to cols
        invariant |t| == cols && forall c' | 0 <= c' < cols :: |t[c']| == rows
        invariant forall c', r' | 0 <= c' < cols && 0 <= r' < r :: t[c'][r'] == g[r'][c']
        invariant forall c' | 0 <= c' < c :: t[c'][r] == g[r][c']
      {
        t := t[c := t[c][r := g[r][c]]];
      }
    }
    forall c | 0 <= c < cols
      ensures t[c] == Transpose(g)[c]
    {
      assert forall r | 0 <= r < rows :: t[c][r] == Transpose(g)[c][r];
    }
  }

  // ---------------------------------------------------------------------
  // Tallest trees in each direction

  function Max(a: nat, b: nat): nat
  {
    if a >= b then a else b
  }

  /** The tallest height in `s`, or 0 when `s` is empty. */
  function SeqMax(s: seq<nat>): (m: nat)
    ensures forall i | 0 <= i < |s| :: s[i] <= m
    ensures m == 0 || m in s
  {
    if s == [] then 0
    else
      var rest := SeqMax(s[1..]);
      assert rest != 0 ==> rest in s;
      Max(s[0], rest)
  }

  /** The bound and membership of SeqMax's contract single out its value. */
  lemma SeqMaxUnique(s: seq<nat>, m: nat)
    requires forall i | 0 <= i < |s| :: s[i] <= m
    requires m == 0 || m in s
    ensures SeqMax(s) == m
  {
    var k := SeqMax(s);
    if k != 0 {
      var i :| 0 <= i < |s| && s[i] == k;
    }
    if m != 0 {
      var i :| 0 <= i < |s| && s[i] == m;
    }
  }

  /** SeqMax depends only on which heights occur. */
  lemma SeqMaxSameElements(a: seq<nat>, b: seq<nat>)
    requires forall x :: x in a <==> x in b
    ensures SeqMax(a) == SeqMax(b)
  {
    var m := SeqMax(a);
    forall i | 0 <= i < |b|
      ensures b[i] <= m
    {
      assert b[i] in a;
    }
    SeqMaxUnique(b, m);
  }

  /** A non-empty sequence holds its maximum. */
  lemma SeqMaxMember(s: seq<nat>)
    requires s != []
    ensures SeqMax(s) in s
  {
    assert s[0] <= SeqMax(s);
  }

  /** The `scan` of `left_max` over one row, carrying the tallest height
      seen so far in `state`: each cell gets the state before it. */
  function RunningMax(row: seq<nat>, state: nat): (m: seq<nat>)
    ensures |m| == |row|
    ensures forall i | 0 <= i < |row| :: m[i] == Max(state, SeqMax(row[..i]))
    decreases |row|
  {
    if row == [] then []
    else
      var next := if row[0] > state then row[0] else state;
      var rest := RunningMax(row[1..], next);
      var m := [state] + rest;
      assert forall i | 1 <= i < |row| :: row[..i][1..] == row[1..][..i - 1];
      m
  }

  /** `Forest::left_max`: each cell holds the tallest tree strictly to its
      left in its row, 0 in the first column. */
  function LeftMax(g: Grid<nat>): (m: Grid<nat>)
    ensures |m| == |g|
    ensures forall r | 0 <= r < |g| ::
      |m[r]| == |g[r]| && forall c | 0 <= c < |g[r]| :: m[r][c] == SeqMax(g[r][..c])
  {
    seq(|g|, r requires 0 <= r < |g| => RunningMax(g[r], 0))
  }

  /** Two sequences, each the other read backwards, hold the same elements. */
  lemma MirrorSameElements(a: seq<nat>, b: seq<nat>)
    requires |a| == |b| && forall i | 0 <= i < |a| :: a[i] == b[|a| - 1 - i]
    ensures forall x :: x in a <==> x in b
  {
    forall x
      ensures x in a <==> x in b
    {
      if x in a {
        var i :| 0 <= i < |a| && a[i] == x;
        assert b[|a| - 1 - i] == x;
      }
      if x in b {
        var j :| 0 <= j < |b| && b[j] == x;
        assert a[|a| - 1 - j] == x;
      }
    }
  }

  /** The cells before position `|row| - 1 - c` of a reversed row are the
      cells after position `c`, read backwards. */
  lemma ReversedPrefix(row: seq<nat>, c: nat)
    requires c < |row|
    ensures SeqMax(Reverse(row)[..|row| - 1 - c]) == SeqMax(row[c + 1..])
  {
    var back := row[c + 1..];
    assert Reverse(row)[..|row| - 1 - c] == Reverse(back) by {
      var front := row[..c + 1];
      assert row == front + back;
      ReverseConcat(front, back);
    }
    SeqMaxReverse(back);
  }

  /** Reading a line backwards does not change its tallest tree. */
  lemma SeqMaxReverse(s: seq<nat>)
    ensures SeqMax(Reverse(s)) == SeqMax(s)
  {
    MirrorSameElements(Reverse(s), s);
    SeqMaxSameElements(Reverse(s), s);
  }

  /** `Forest::right_max`: each cell holds the tallest tree strictly to its
      right in its row, 0 in the last column. */
  function RightMax(g: Grid<nat>): (m: Grid<nat>)
    ensures |m| == |g|
    ensures forall r | 0 <= r < |g| ::
      |m[r]| == |g[r]| && forall c | 0 <= c < |g[r]| :: m[r][c] == SeqMax(g[r][c + 1..])
  {
    var m := Flipped(LeftMax(Flipped(g)));
    forall r, c | 0 <= r < |g| && 0 <= c < |g[r]|
      ensures m[r][c] == SeqMax(g[r][c + 1..])
    {
      RightMaxCell(g, r, c);
    }
    m
  }

  lemma RightMaxCell(g: Grid<nat>, r: nat, c: nat)
    requires r < |g| && c < |g[r]|
    ensures Flipped(LeftMax(Flipped(g)))[r][c] == SeqMax(g[r][c + 1..])
  {
    var f := Flipped(g);
    var left := LeftMax(f);
    var k := |g[r]| - 1 - c;
    assert f[r] == Reverse(g[r]);
    assert |left[r]| == |g[r]|;
    assert left[r][k] == SeqMax(f[r][..k]);
    assert Flipped(left)[r][c] == left[r][k];
    ReversedPrefix(g[r], c);
  }

  /** `Forest::up_max`: the left table of the transposed grid, transposed
      back. */
  function UpMax(g: Grid<nat>): (m: Grid<nat>)
    requires HasWidth(g)
    ensures |m| == |g| && forall r | 0 <= r < |g| :: |m[r]| == |g[0]|
  {
    var x := LeftMax(Transpose(g));
    assert |x| == |g[0]| && |x[0]| == |g|;
    Transpose(x)
  }

  /** Each cell of `up_max` holds the tallest tree strictly above it in its
      column, 0 in the first row. */
  lemma UpMaxCell(g: Grid<nat>, r: nat, c: nat)
    requires HasWidth(g) && r < |g| && c < |g[0]|
    ensures HasColumn(g, c) && UpMax(g)[r][c] == SeqMax(Column(g, c)[..r])
  {
    var t := Transpose(g);
    TransposeRowIsColumn(g, c);
    assert LeftMax(t)[c][r] == SeqMax(t[c][..r]);
  }

  /** `Forest::down_max`: the right table of the transposed grid, transposed
      back. */
  function DownMax(g: Grid<nat>): (m: Grid<nat>)
    requires HasWidth(g)
    ensures |m| == |g| && forall r | 0 <= r < |g| :: |m[r]| == |g[0]|
  {
    var x := RightMax(Transpose(g));
    assert |x| == |g[0]| && |x[0]| == |g|;
    Transpose(x)
  }

  /** Each cell of `down_max` holds the tallest tree strictly below it in
      its column, 0 in the last row. */
  lemma DownMaxCell(g: Grid<nat>, r: nat, c: nat)
    requires HasWidth(g) && r < |g| && c < |g[0]|
    ensures HasColumn(g, c) && DownMax(g)[r][c] == SeqMax(Column(g, c)[r + 1..])
  {
    var t := Transpose(g);
    TransposeRowIsColumn(g, c);
    assert RightMax(t)[c][r] == SeqMax(t[c][r + 1..]);
  }

  // ---------------------------------------------------------------------
  // Visible trees

  /** No tree of `trees` is as tall as `h`. */
  predicate AllShorter(trees: seq<nat>, h: nat)
  {
    forall i | 0 <= i < |trees| :: trees[i] < h
  }

  /** A tree is visible from outside the forest when every tree between it
      and the edge is shorter in at least one direction. */
  predicate SeenFromEdge(g: Grid<nat>, r: nat, c: nat)
    requires Rectangular(g) && r < |g| && c < |g[0]|
  {
    var h, row, col := g[r][c], Row(g, r), Column(g, c);
    AllShorter(row[..c], h) || AllShorter(row[c + 1..], h) ||
    AllShorter(col[..r], h) || AllShorter(col[r + 1..], h)
  }

  /** The cell lies in the first or last row or column. */
  predicate OnBorder(g: Grid<nat>, r: nat, c: nat)
    requires |g| > 0
  {
    r == 0 || c == 0 || r == |g| - 1 || c == |g[0]| - 1
  }

  /** `table` has a cell for every cell of `g` within the first row's width. */
  predicate Covers(table: Grid<nat>, g: Grid<nat>)
    requires HasWidth(g)
  {
    |table| == |g| && forall r | 0 <= r < |g| :: |table[r]| >= |g[0]|
  }

  predicate HasCell(table: Grid<nat>, r: nat, c: nat)
  {
    r < |table| && c < |table[r]|
  }

  /** The test `visible_trees` applies at one cell, given the four max
      tables: cells on the border are visible, and an interior tree is
      visible when it is taller than its cell in at least one table. */
  predicate VisibleBy(g: Grid<nat>, lmax: Grid<nat>, rmax: Grid<nat>, umax: Grid<nat>,
                      dmax: Grid<nat>, r: nat, c: nat)
    requires HasWidth(g) && r < |g| && c < |g[0]|
    requires HasCell(lmax, r, c) && HasCell(rmax, r, c) && HasCell(umax, r, c) && HasCell(dmax, r, c)
  {
    var h := g[r][c];
    OnBorder(g, r, c) || h > lmax[r][c] || h > rmax[r][c] || h > umax[r][c] || h > dmax[r][c]
  }

  /** `visible_trees`' test with the forest's own max tables. */
  predicate Visible(g: Grid<nat>, r: nat, c: nat)
    requires HasWidth(g) && r < |g| && c < |g[0]|
  {
    VisibleBy(g, LeftMax(g), RightMax(g), UpMax(g), DownMax(g), r, c)
  }

  /** For a non-empty line of trees, all are shorter than `h` exactly when
      the tallest of them is. */
  lemma AllShorterMax(trees: seq<nat>, h: nat)
    requires trees != []
    ensures AllShorter(trees, h) <==> SeqMax(trees) < h
  {
    SeqMaxMember(trees);
  }

  /** A border tree has an empty line of trees on one side. */
  lemma BorderSeen(g: Grid<nat>, r: nat, c: nat)
    requires Rectangular(g) && r < |g| && c < |g[0]| && OnBorder(g, r, c)
    ensures SeenFromEdge(g, r, c)
  {
    var row, col := Row(g, r), Column(g, c);
    if r == 0 {
      assert col[..r] == [];
    } else if c == 0 {
      assert row[..c] == [];
    } else if r == |g| - 1 {
      assert col[r + 1..] == [];
    } else {
      assert row[c + 1..] == [];
    }
  }

  lemma LeftClear(g: Grid<nat>, r: nat, c: nat)
    requires r < |g| && 0 < c < |g[r]|
    ensures g[r][c] > LeftMax(g)[r][c] <==> AllShorter(g[r][..c], g[r][c])
  {
    AllShorterMax(g[r][..c], g[r][c]);
  }

  lemma RightClear(g: Grid<nat>, r: nat, c: nat)
    requires r < |g| && c < |g[r]| - 1
    ensures g[r][c] > RightMax(g)[r][c] <==> AllShorter(g[r][c + 1..], g[r][c])
  {
    AllShorterMax(g[r][c + 1..], g[r][c]);
  }

  lemma UpClear(g: Grid<nat>, r: nat, c: nat)
    requires HasWidth(g) && 0 < r < |g| && c < |g[0]|
    ensures HasColumn(g, c)
    ensures g[r][c] > UpMax(g)[r][c] <==> AllShorter(Column(g, c)[..r], g[r][c])
  {
    UpMaxCell(g, r, c);
    AllShorterMax(Column(g, c)[..r], g[r][c]);
  }

  lemma DownClear(g: Grid<nat>, r: nat, c: nat)
    requires HasWidth(g) && r < |g| - 1 && c < |g[0]|
    ensures HasColumn(g, c)
    ensures g[r][c] > DownMax(g)[r][c] <==> AllShorter(Column(g, c)[r + 1..], g[r][c])
  {
    DownMaxCell(g, r, c);
    AllShorterMax(Column(g, c)[r + 1..], g[r][c]);
  }

  /** The max-table test agrees with the definition of visibility. */
  lemma VisibleIffSeen(g: Grid<nat>, r: nat, c: nat)
    requires Rectangular(g) && r < |g| && c < |g[0]|
    ensures Visible(g, r, c) <==> SeenFromEdge(g, r, c)
  {
    if OnBorder(g, r, c) {
      BorderSeen(g, r, c);
    } else {
      LeftClear(g, r, c);
      RightClear(g, r, c);
      UpClear(g, r, c);
      DownClear(g, r, c);
    }
  }

  /** A tree with only shorter trees to its left passes the test. */
  lemma VisibleFromLeft(g: Grid<nat>, r: nat, c: nat)
    requires HasWidth(g) && r < |g| && c < |g[0]| && AllShorter(g[r][..c], g[r][c])
    ensures Visible(g, r, c)
  {
    if c > 0 {
      LeftClear(g, r, c);
    }
  }

  /** A tree with only shorter trees to its right passes the test. */
  lemma VisibleFromRight(g: Grid<nat>, r: nat, c: nat)
    requires HasWidth(g) && r < |g| && c < |g[0]| && AllShorter(g[r][c + 1..], g[r][c])
    ensures Visible(g, r, c)
  {
    if c < |g[0]| - 1 {
      RightClear(g, r, c);
    }
  }

  /** A tree with only shorter trees above it passes the test. */
  lemma VisibleFromAbove(g: Grid<nat>, r: nat, c: nat)
    requires HasWidth(g) && r < |g| && c < |g[0]| && HasColumn(g, c)
    requires AllShorter(Column(g, c)[..r], g[r][c])
    ensures Visible(g, r, c)
  {
    if r > 0 {
      UpClear(g, r, c);
    }
  }

  /** A tree with only shorter trees below it passes the test. */
  lemma VisibleFromBelow(g: Grid<nat>, r: nat, c: nat)
    requires HasWidth(g) && r < |g| && c < |g[0]| && HasColumn(g, c)
    requires AllShorter(Column(g, c)[r + 1..], g[r][c])
    ensures Visible(g, r, c)
  {
    if r < |g| - 1 {
      DownClear(g, r, c);
    }
  }

  lemma LeftBlocked(g: Grid<nat>, r: nat, c: nat, k: nat)
    requires r < |g| && k < c < |g[r]| && g[r][k] >= g[r][c]
    ensures LeftMax(g)[r][c] >= g[r][c]
  {
    assert g[r][..c][k] == g[r][k];
  }

  lemma RightBlocked(g: Grid<nat>, r: nat, c: nat, k: nat)
    requires r < |g| && c < k < |g[r]| && g[r][k] >= g[r][c]
    ensures RightMax(g)[r][c] >= g[r][c]
  {
    assert g[r][c + 1..][k - c - 1] == g[r][k];
  }

  lemma UpBlocked(g: Grid<nat>, r: nat, c: nat, k: nat)
    requires HasWidth(g) && k < r < |g| && c < |g[0]| && g[k][c] >= g[r][c]
    ensures UpMax(g)[r][c] >= g[r][c]
  {
    UpMaxCell(g, r, c);
    assert Column(g, c)[..r][k] == g[k][c];
  }

  lemma DownBlocked(g: Grid<nat>, r: nat, c: nat, k: nat)
    requires HasWidth(g) && r < k < |g| && c < |g[0]| && g[k][c] >= g[r][c]
    ensures DownMax(g)[r][c] >= g[r][c]
  {
    DownMaxCell(g, r, c);
    assert Column(g, c)[r + 1..][k - r - 1] == g[k][c];
  }

  /** An interior tree with a tree at least as tall in each of the four
      directions (in columns `left` and `right` of its row, in rows `up` and
      `down` of its column) fails the test. */
  lemma HiddenBehind(g: Grid<nat>, r: nat, c: nat, left: nat, right: nat, up: nat, down: nat)
    requires HasWidth(g) && 0 < r < |g| - 1 && 0 < c < |g[0]| - 1
    requires left < c < right < |g[r]| && up < r < down < |g|
    requires g[r][left] >= g[r][c] && g[r][right] >= g[r][c]
    requires g[up][c] >= g[r][c] && g[down][c] >= g[r][c]
    ensures !Visible(g, r, c)
  {
    LeftBlocked(g, r, c, left);
    RightBlocked(g, r, c, right);
    UpBlocked(g, r, c, up);
    DownBlocked(g, r, c, down);
  }

  /** The grid `visible_trees` returns: `Visible` at every cell of the
      first row's width. */
  function VisibleGrid(g: Grid<nat>): (v: Grid<bool>)
    requires HasWidth(g)
    ensures |v| == |g| && forall r | 0 <= r < |g| :: |v[r]| == |g[0]|
  {
    seq(|g|, r requires 0 <= r < |g| =>
      seq(|g[0]|, c requires 0 <= c < |g[0]| => Visible(g, r, c)))
  }

  /** `Forest::visible_trees`: the four max tables, then a fresh all-visible
      grid whose interior cells are overwritten with the four-table test. */
  method VisibleTrees(g: Grid<nat>) returns (v: Grid<bool>)
    requires HasWidth(g)
    ensures v == VisibleGrid(g)
  {
    var lmax, rmax, umax, dmax := LeftMax(g), RightMax(g), UpMax(g), DownMax(g);
    assert Covers(lmax, g) && Covers(rmax, g) && Covers(umax, g) && Covers(dmax, g) by {
      TablesCover(g);
    }
    v := FillVisible(g, lmax, rmax, umax, dmax);
    assert forall i, j | 0 <= i < |g| && 0 <= j < |g[0]| :: v[i][j] == Visible(g, i, j);
    FilledIsVisibleGrid(g, v);
  }

  lemma TablesCover(g: Grid<nat>)
    requires HasWidth(g)
    ensures Covers(LeftMax(g), g) && Covers(RightMax(g), g)
    ensures Covers(UpMax(g), g) && Covers(DownMax(g), g)
  {
  }

  /** A grid of the forest's shape holding `Visible` in every cell is `VisibleGrid`. */
  lemma FilledIsVisibleGrid(g: Grid<nat>, v: Grid<bool>)
    requires HasWidth(g) && |v| == |g| && forall i | 0 <= i < |g| :: |v[i]| == |g[0]|
    requires forall i, j | 0 <= i < |g| && 0 <= j < |g[0]| :: v[i][j] == Visible(g, i, j)
    ensures v == VisibleGrid(g)
  {
    var w := VisibleGrid(g);
    forall i, j | 0 <= i < |g| && 0 <= j < |g[0]|
      ensures v[i][j] == w[i][j]
    {
      VisibleGridCell(g, i, j);
    }
    SameCells(v, w);
  }

  lemma VisibleGridCell(g: Grid<nat>, r: nat, c: nat)
    requires HasWidth(g) && r < |g| && c < |g[0]|
    ensures VisibleGrid(g)[r][c] == Visible(g, r, c)
  {
  }

  /** Two grids of the same shape that agree on every cell are equal. */
  lemma SameCells<T>(v: Grid<T>, w: Grid<T>)
    requires |v| == |w| && |v| > 0
    requires forall i | 0 <= i < |v| :: |v[i]| == |w[i]| == |v[0]|
    requires forall i, j | 0 <= i < |v| && 0 <= j < |v[0]| :: v[i][j] == w[i][j]
    ensures v == w
  {
    forall i | 0 <= i < |v|
      ensures v[i] == w[i]
    {
      assert forall j | 0 <= j < |v[i]| :: v[i][j] == w[i][j];
    }
  }

  /** The nested loops of `visible_trees`, over the given tables. */
  method FillVisible(g: Grid<nat>, lmax: Grid<nat>, rmax: Grid<nat>, umax: Grid<nat>,
                     dmax: Grid<nat>) returns (v: Grid<bool>)
    requires HasWidth(g)
    requires Covers(lmax, g) && Covers(rmax, g) && Covers(umax, g) && Covers(dmax, g)
    ensures |v| == |g| && forall i | 0 <= i < |g| :: |v[i]| == |g[0]|
    ensures forall i, j | 0 <= i < |g| && 0 <= j < |g[0]| ::
      v[i][j] == VisibleBy(g, lmax, rmax, umax, dmax, i, j)
  {
    var rows, cols := |g|, |g[0]|;
    v := seq(rows, _ => seq(cols, _ => true));
    var r := 1;
    while r < rows - 1
      invariant 1 <= r <= rows
      invariant |v| == rows && forall i | 0 <= i < rows :: |v[i]| == cols
      invariant forall i, j | 0 <= i < r && 0 <= j < cols ::
        v[i][j] == VisibleBy(g, lmax, rmax, umax, dmax, i, j)
      invariant forall i, j | r <= i < rows && 0 <= j < cols :: v[i][j]
    {
      var c := 1;
      while c < cols - 1
        invariant 1 <= c <= cols
        invariant |v| == rows && forall i | 0 <= i < rows :: |v[i]| == cols
        invariant forall i, j | 0 <= i < r && 0 <= j < cols ::
          v[i][j] == VisibleBy(g, lmax, rmax, umax, dmax, i, j)
        invariant forall j | 0 <= j < c :: v[r][j] == VisibleBy(g, lmax, rmax, umax, dmax, r, j)
        invariant forall i, j | r <= i < rows && 0 <= j < cols && (i > r || j >= c) :: v[i][j]
      {
        var height := g[r][c];
        var isVisible := height > lmax[r][c] || height > rmax[r][c] ||
          height > umax[r][c] || height > dmax[r][c];
        v := v[r := v[r][c := isVisible]];
        c := c + 1;
      }
      r := r + 1;
    }
  }

  /** The number of `true` cells of a row. */
  function CountTrue(row: seq<bool>): (n: nat)
    ensures n <= |row|
  {
    if row == [] then 0 else (if row[0] then 1 else 0) + CountTrue(row[1..])
  }

  /** The number of `true` cells of a grid, row sums added up. */
  function CountGrid(v: Grid<bool>): nat
  {
    if v == [] then 0 else CountTrue(v[0]) + CountGrid(v[1..])
  }

  /** The answer of `number_of_visible_trees`. */
  function VisibleCount(g: Grid<nat>): nat
    requires HasWidth(g)
  {
    CountGrid(VisibleGrid(g))
  }

  /** The number of trees on the border of a `rows x cols` forest. */
  function EdgeTrees(rows: nat, cols: nat): nat
    requires rows > 0 && cols > 0
  {
    if rows == 1 then cols else 2 * cols + (rows - 2) * (if cols == 1 then 1 else 2)
  }

  /** `Forest::number_of_visible_trees`. */
  method NumberOfVisibleTrees(g: Grid<nat>) returns (n: nat)
    requires HasWidth(g)
    ensures n == VisibleCount(g)
    ensures EdgeTrees(|g|, |g[0]|) <= n <= |g| * |g[0]|
  {
    var v := VisibleTrees(g);
    n := CountGrid(v);
    VisibleCountBounds(g);
  }

  lemma {:induction false} CountTrueAllTrue(row: seq<bool>)
    requires forall j | 0 <= j < |row| :: row[j]
    ensures CountTrue(row) == |row|
    decreases |row|
  {
    if row != [] {
      CountTrueAllTrue(row[1..]);
    }
  }

  lemma {:induction false} CountTrueConcat(a: seq<bool>, b: seq<bool>)
    ensures CountTrue(a + b) == CountTrue(a) + CountTrue(b)
    decreases |a|
  {
    if a != [] {
      assert (a + b)[0] == a[0] && (a + b)[1..] == a[1..] + b;
      CountTrueConcat(a[1..], b);
    } else {
      assert a + b == b;
    }
  }

  /** A row whose two end cells are true counts at least those. */
  lemma CountTrueEnds(row: seq<bool>)
    requires |row| > 0 && row[0] && row[|row| - 1]
    ensures CountTrue(row) >= if |row| == 1 then 1 else 2
  {
    if |row| > 1 {
      var middle := row[1..|row| - 1];
      assert row[1..] == middle + [row[|row| - 1]];
      CountTrueConcat(middle, [row[|row| - 1]]);
    }
  }

  lemma {:induction false} CountGridConcat(a: Grid<bool>, b: Grid<bool>)
    ensures CountGrid(a + b) == CountGrid(a) + CountGrid(b)
    decreases |a|
  {
    if a != [] {
      assert (a + b)[0] == a[0] && (a + b)[1..] == a[1..] + b;
      CountGridConcat(a[1..], b);
    } else {
      assert a + b == b;
    }
  }

  /** At most one per cell. */
  lemma {:induction false} CountGridAtMost(v: Grid<bool>, cols: nat)
    requires forall i | 0 <= i < |v| :: |v[i]| == cols
    ensures CountGrid(v) <= |v| * cols
    decreases |v|
  {
    if v != [] {
      CountGridAtMost(v[1..], cols);
      assert |v| * cols == cols + (|v| - 1) * cols;
    }
  }

  /** Rows whose two end cells are true count at least `k` each. */
  lemma {:induction false} CountGridEnds(v: Grid<bool>, cols: nat, k: nat)
    requires cols > 0 && k == (if cols == 1 then 1 else 2)
    requires forall i | 0 <= i < |v| :: |v[i]| == cols && v[i][0] && v[i][cols - 1]
    ensures CountGrid(v) >= |v| * k
    decreases |v|
  {
    if v != [] {
      CountTrueEnds(v[0]);
      CountGridEnds(v[1..], cols, k);
      assert |v| * k == k + (|v| - 1) * k;
    }
  }

  /** Every cell of the first and last rows and columns of `v` is true. */
  predicate EdgesTrue(v: Grid<bool>, cols: nat)
  {
    |v| > 0 && cols > 0 &&
    (forall i | 0 <= i < |v| :: |v[i]| == cols && v[i][0] && v[i][cols - 1]) &&
    (forall i, j | 0 <= i < |v| && (i == 0 || i == |v| - 1) && 0 <= j < cols :: v[i][j])
  }

  /** Dropping the first element of a sequence leaves its middle and its
      last element. */
  lemma TailSplit<T>(v: seq<T>)
    requires |v| >= 2
    ensures v[1..] == v[1..|v| - 1] + [v[|v| - 1]]
  {
  }

  /** A grid of two or more rows counts its first row, the rows between and
      its last row. */
  lemma CountGridEnclosed(v: Grid<bool>)
    requires |v| >= 2
    ensures CountGrid(v) == CountTrue(v[0]) + CountGrid(v[1..|v| - 1]) + CountTrue(v[|v| - 1])
  {
    var rest, middle, last := v[1..], v[1..|v| - 1], [v[|v| - 1]];
    TailSplit(v);
    CountGridConcat(middle, last);
    assert last[1..] == [];
  }

  /** A grid whose edges are true counts at least its edge cells and at most
      all of its cells. */
  lemma EdgesCount(v: Grid<bool>, cols: nat)
    requires EdgesTrue(v, cols)
    ensures EdgeTrees(|v|, cols) <= CountGrid(v) <= |v| * cols
  {
    var rows := |v|;
    CountGridAtMost(v, cols);
    CountTrueAllTrue(v[0]);
    CountTrueAllTrue(v[rows - 1]);
    if rows == 1 {
      assert v[1..] == [];
    } else {
      CountGridEnclosed(v);
      CountGridEnds(v[1..rows - 1], cols, if cols == 1 then 1 else 2);
    }
  }

  /** Border trees pass `visible_trees`' test. */
  lemma BorderVisible(g: Grid<nat>, r: nat, c: nat)
    requires HasWidth(g) && r < |g| && c < |g[0]| && OnBorder(g, r, c)
    ensures Visible(g, r, c)
  {
  }

  lemma VisibleEdges(g: Grid<nat>)
    requires HasWidth(g)
    ensures EdgesTrue(VisibleGrid(g), |g[0]|)
  {
    var v, rows, cols := VisibleGrid(g), |g|, |g[0]|;
    forall i | 0 <= i < rows
      ensures v[i][0] && v[i][cols - 1]
    {
      BorderVisible(g, i, 0);
      BorderVisible(g, i, cols - 1);
    }
    forall i, j | 0 <= i < rows && (i == 0 || i == rows - 1) && 0 <= j < cols
      ensures v[i][j]
    {
      BorderVisible(g, i, j);
    }
  }

  /** Every border tree is visible and no tree counts twice. */
  lemma VisibleCountBounds(g: Grid<nat>)
    requires HasWidth(g)
    ensures EdgeTrees(|g|, |g[0]|) <= VisibleCount(g) <= |g| * |g[0]|
  {
    VisibleEdges(g);
    EdgesCount(VisibleGrid(g), |g[0]|);
  }

  /** In a forest at most two trees wide or tall every tree is on the edge. */
  lemma EdgeTreesThin(rows: nat, cols: nat)
    requires rows > 0 && cols > 0 && (rows <= 2 || cols <= 2)
    ensures EdgeTrees(rows, cols) == rows * cols
  {
    if rows == 1 {
    } else if rows == 2 {
      assert 2 * cols == rows * cols;
    } else if cols == 1 {
    } else {
      assert cols == 2;
      assert 2 * cols + (rows - 2) * 2 == rows * cols;
    }
  }

  /** So in such a forest every tree is visible. */
  lemma ThinForestAllVisible(g: Grid<nat>)
    requires HasWidth(g) && (|g| <= 2 || |g[0]| <= 2)
    ensures VisibleCount(g) == |g| * |g[0]|
  {
    VisibleCountBounds(g);
    EdgeTreesThin(|g|, |g[0]|);
  }

  // ---------------------------------------------------------------------
  // Scenic scores

  /** `take_while(|h| height > h).count()`: the length of the run of trees
      shorter than `h` at the start of `trees`. */
  function LeadingShorter(trees: seq<nat>, h: nat): (n: nat)
    ensures n <= |trees| && AllShorter(trees[..n], h)
    ensures n < |trees| ==> trees[n] >= h
  {
    if trees == [] || trees[0] >= h then 0
    else
      var n := 1 + LeadingShorter(trees[1..], h);
      assert trees[..n] == [trees[0]] + trees[1..][..n - 1];
      n
  }

  /** `Forest::num_of_trees_visible`: looking along `trees` from a tree of
      height `h`, the trees seen up to and including the first one at least
      as tall, or to the edge; 1 when there are no trees at all. */
  function NumTreesVisible(trees: seq<nat>, h: nat): (n: nat)
    ensures 1 <= n && (trees != [] ==> n <= |trees|)
    ensures trees != [] ==> AllShorter(trees[..n - 1], h)
    ensures trees != [] && n < |trees| ==> trees[n - 1] >= h
  {
    if trees == [] then 1
    else
      var shorter := LeadingShorter(trees, h);
      if shorter < |trees| then shorter + 1 else |trees|
  }

  /** The contract of NumTreesVisible pins down its value. */
  lemma ViewingDistanceUnique(trees: seq<nat>, h: nat, n: nat)
    requires 1 <= n <= |trees|
    requires AllShorter(trees[..n - 1], h)
    requires n < |trees| ==> trees[n - 1] >= h
    ensures NumTreesVisible(trees, h) == n
  {
  }

  /** From a tree taller than all the others in a line, every tree of that
      line is seen. */
  lemma ClearView(trees: seq<nat>, h: nat)
    requires trees != [] && AllShorter(trees, h)
    ensures NumTreesVisible(trees, h) == |trees|
  {
    ViewingDistanceUnique(trees, h, |trees|);
  }

  /** Trees seen looking up from `(r, c)`: its column above it, nearest first. */
  function ViewUp(g: Grid<nat>, r: nat, c: nat): nat
    requires HasWidth(g) && r < |g| && c < |g[0]|
  {
    NumTreesVisible(Reverse(Column(g, c)[..r]), g[r][c])
  }

  /** Trees seen looking down: its column below it, nearest first. */
  function ViewDown(g: Grid<nat>, r: nat, c: nat): nat
    requires HasWidth(g) && r < |g| && c < |g[0]|
  {
    NumTreesVisible(Column(g, c)[r + 1..], g[r][c])
  }

  /** Trees seen looking left: its row before it, nearest first. */
  function ViewLeft(g: Grid<nat>, r: nat, c: nat): nat
    requires r < |g| && c < |g[r]|
  {
    NumTreesVisible(Reverse(Row(g, r)[..c]), g[r][c])
  }

  /** Trees seen looking right: its row after it, nearest first. */
  function ViewRight(g: Grid<nat>, r: nat, c: nat): nat
    requires r < |g| && c < |g[r]|
  {
    NumTreesVisible(Row(g, r)[c + 1..], g[r][c])
  }

  /** The score `scenic_scores` computes for one cell: the trees seen looking
      up, down, left and right, multiplied. */
  function ScenicScore(g: Grid<nat>, r: nat, c: nat): nat
    requires HasWidth(g) && r < |g| && c < |g[0]|
  {
    Mul(Mul(Mul(ViewUp(g, r, c), ViewDown(g, r, c)), ViewLeft(g, r, c)), ViewRight(g, r, c))
  }

  /** Looking up one sees `n` trees when the `n - 1` nearest are shorter and
      the next is at least as tall or is in the first row; 1 from the first
      row itself. */
  lemma ViewUpIs(g: Grid<nat>, r: nat, c: nat, n: nat)
    requires HasWidth(g) && r < |g| && c < |g[0]|
    requires 1 <= n && (r == 0 ==> n == 1) && (r > 0 ==> n <= r)
    requires forall k | r - n < k < r :: g[k][c] < g[r][c]
    requires n < r ==> g[r - n][c] >= g[r][c]
    ensures ViewUp(g, r, c) == n
  {
    var trees := Reverse(Column(g, c)[..r]);
    if r > 0 {
      assert forall i | 0 <= i < r :: trees[i] == g[r - 1 - i][c];
      ViewingDistanceUnique(trees, g[r][c], n);
    }
  }

  /** Looking down, likewise towards the last row. */
  lemma ViewDownIs(g: Grid<nat>, r: nat, c: nat, n: nat)
    requires HasWidth(g) && r < |g| && c < |g[0]|
    requires 1 <= n && (r == |g| - 1 ==> n == 1) && (r < |g| - 1 ==> n <= |g| - 1 - r)
    requires forall k | r < k < r + n && k < |g| :: g[k][c] < g[r][c]
    requires n < |g| - 1 - r ==> g[r + n][c] >= g[r][c]
    ensures ViewDown(g, r, c) == n
  {
    var trees := Column(g, c)[r + 1..];
    if r < |g| - 1 {
      assert forall i | 0 <= i < |trees| :: trees[i] == g[r + 1 + i][c];
      ViewingDistanceUnique(trees, g[r][c], n);
    }
  }

  /** Looking left, likewise towards the first column. */
  lemma ViewLeftIs(g: Grid<nat>, r: nat, c: nat, n: nat)
    requires r < |g| && c < |g[r]|
    requires 1 <= n && (c == 0 ==> n == 1) && (c > 0 ==> n <= c)
    requires forall k | c - n < k < c :: g[r][k] < g[r][c]
    requires n < c ==> g[r][c - n] >= g[r][c]
    ensures ViewLeft(g, r, c) == n
  {
    var trees := Reverse(Row(g, r)[..c]);
    if c > 0 {
      assert forall i | 0 <= i < c :: trees[i] == g[r][c - 1 - i];
      ViewingDistanceUnique(trees, g[r][c], n);
    }
  }

  /** Looking right, likewise towards the end of the row. */
  lemma ViewRightIs(g: Grid<nat>, r: nat, c: nat, n: nat)
    requires r < |g| && c < |g[r]|
    requires 1 <= n && (c == |g[r]| - 1 ==> n == 1) && (c < |g[r]| - 1 ==> n <= |g[r]| - 1 - c)
    requires forall k | c < k < c + n && k < |g[r]| :: g[r][k] < g[r][c]
    requires n < |g[r]| - 1 - c ==> g[r][c + n] >= g[r][c]
    ensures ViewRight(g, r, c) == n
  {
    var trees := Row(g, r)[c + 1..];
    if c < |g[r]| - 1 {
      assert forall i | 0 <= i < |trees| :: trees[i] == g[r][c + 1 + i];
      ViewingDistanceUnique(trees, g[r][c], n);
    }
  }

  /** The product of two counts. */
  function Mul(a: nat, b: nat): (p: nat)
    ensures a >= 1 && b >= 1 ==> p >= a && p >= b
  {
    a * b
  }

  lemma ProductPositive(a: nat, b: nat, c: nat, d: nat)
    requires a >= 1 && b >= 1 && c >= 1 && d >= 1
    ensures Mul(Mul(Mul(a, b), c), d) >= 1
  {
  }

  /** No score is zero: an empty direction counts 1. */
  lemma ScenicScorePositive(g: Grid<nat>, r: nat, c: nat)
    requires HasWidth(g) && r < |g| && c < |g[0]|
    ensures ScenicScore(g, r, c) >= 1
  {
    ProductPositive(ViewUp(g, r, c), ViewDown(g, r, c), ViewLeft(g, r, c), ViewRight(g, r, c));
  }

  /** The grid `scenic_scores` returns. */
  function ScenicGrid(g: Grid<nat>): (s: Grid<nat>)
    requires HasWidth(g)
    ensures |s| == |g| && forall r | 0 <= r < |g| :: |s[r]| == |g[0]|
  {
    seq(|g|, r requires 0 <= r < |g| =>
      seq(|g[0]|, c requires 0 <= c < |g[0]| => ScenicScore(g, r, c)))
  }

  /** `Forest::scenic_scores`: a fresh grid filled cell by cell. */
  method ScenicScores(g: Grid<nat>) returns (t: Grid<nat>)
    requires HasWidth(g)
    ensures t == ScenicGrid(g)
  {
    var rows, cols := |g|, |g[0]|;
    ghost var spec := ScenicGrid(g);
    t := seq(rows, _ => seq(cols, _ => 0));
    for r := 0 to rows
      invariant |t| == rows && forall i | 0 <= i < rows :: |t[i]| == cols
      invariant forall i | 0 <= i < r :: t[i] == spec[i]
    {
      for c := 0 to cols
        invariant |t| == rows && forall i | 0 <= i < rows :: |t[i]| == cols
        invariant forall i | 0 <= i < r :: t[i] == spec[i]
        invariant forall j | 0 <= j < c :: t[r][j] == spec[r][j]
      {
        var score := CellScore(g, r, c);
        t := t[r := t[r][c := score]];
      }
      assert t[r] == spec[r];
    }
  }

  /** The body of `scenic_scores`' inner loop: the four viewing distances
      from one tree, multiplied. */
  method CellScore(g: Grid<nat>, r: nat, c: nat) returns (score: nat)
    requires HasWidth(g) && r < |g| && c < |g[0]|
    ensures score == ScenicScore(g, r, c) && score == ScenicGrid(g)[r][c]
  {
    var row, col := Row(g, r), Column(g, c);
    var height := g[r][c];
    var up := NumTreesVisible(Reverse(col[..r]), height);
    var down := NumTreesVisible(col[r + 1..], height);
    var left := NumTreesVisible(Reverse(row[..c]), height);
    var right := NumTreesVisible(row[c + 1..], height);
    score := Mul(Mul(Mul(up, down), left), right);
  }

  /** The largest cell of a grid whose rows are all non-empty: the maximum
      of the row maxima. */
  function GridMax(t: Grid<nat>): (m: nat)
    requires |t| > 0 && forall r | 0 <= r < |t| :: |t[r]| > 0
    ensures forall r, c | 0 <= r < |t| && 0 <= c < |t[r]| :: t[r][c] <= m
    ensures exists r, c | 0 <= r < |t| && 0 <= c < |t[r]| :: t[r][c] == m
  {
    var maxima := seq(|t|, r requires 0 <= r < |t| => SeqMax(t[r]));
    SeqMaxMember(maxima);
    var m := SeqMax(maxima);
    var r :| 0 <= r < |t| && maxima[r] == m;
    SeqMaxMember(t[r]);
    assert forall i, j | 0 <= i < |t| && 0 <= j < |t[i]| :: t[i][j] <= maxima[i] <= m;
    m
  }

  /** `m` is the highest scenic score of any tree. */
  predicate IsBestScore(g: Grid<nat>, m: nat)
    requires HasWidth(g)
  {
    (forall r, c | 0 <= r < |g| && 0 <= c < |g[0]| :: ScenicScore(g, r, c) <= m) &&
    (exists r, c | 0 <= r < |g| && 0 <= c < |g[0]| :: ScenicScore(g, r, c) == m)
  }

  /** A forest has one best score. */
  lemma BestScoreUnique(g: Grid<nat>, m: nat, m': nat)
    requires HasWidth(g) && IsBestScore(g, m) && IsBestScore(g, m')
    ensures m == m'
  {
    var r, c :| 0 <= r < |g| && 0 <= c < |g[0]| && ScenicScore(g, r, c) == m;
    var r', c' :| 0 <= r' < |g| && 0 <= c' < |g[0]| && ScenicScore(g, r', c') == m';
  }

  /** `Forest::max_scenic_score`: the highest scenic score of any tree. */
  method MaxScenicScore(g: Grid<nat>) returns (m: nat)
    requires HasWidth(g)
    ensures IsBestScore(g, m)
  {
    var t := ScenicScores(g);
    m := GridMax(t);
    assert forall r, c | 0 <= r < |g| && 0 <= c < |g[0]| :: t[r][c] == ScenicScore(g, r, c);
  }

  // ---------------------------------------------------------------------
  // The published example

  /** The example forest as text, one row per line. */
  const ExampleLines: seq<string> := ["30373", "25512", "65332", "33549", "35390"]

  /** The cells of the puzzle's published example forest. */
  predicate IsExample(g: Grid<nat>)
  {
    |g| == 5 && (forall r | 0 <= r < 5 :: |g[r]| == 5) &&
    g[0][0] == 3 && g[0][1] == 0 && g[0][2] == 3 && g[0][3] == 7 && g[0][4] == 3 &&
    g[1][0] == 2 && g[1][1] == 5 && g[1][2] == 5 && g[1][3] == 1 && g[1][4] == 2 &&
    g[2][0] == 6 && g[2][1] == 5 && g[2][2] == 3 && g[2][3] == 3 && g[2][4] == 2 &&
    g[3][0] == 3 && g[3][1] == 3 && g[3][2] == 5 && g[3][3] == 4 && g[3][4] == 9 &&
    g[4][0] == 3 && g[4][1] == 5 && g[4][2] == 3 && g[4][3] == 9 && g[4][4] == 0
  }

  lemma ExampleVisible11(g: Grid<nat>)
    requires IsExample(g)
    ensures Visible(g, 1, 1)
  {
    assert g[1][..1] == [2];
    VisibleFromLeft(g, 1, 1);
  }

  lemma ExampleVisible12(g: Grid<nat>)
    requires IsExample(g)
    ensures Visible(g, 1, 2)
  {
    assert Column(g, 2)[..1] == [3];
    VisibleFromAbove(g, 1, 2);
  }

  lemma ExampleHidden13(g: Grid<nat>)
    requires IsExample(g)
    ensures !Visible(g, 1, 3)
  {
    HiddenBehind(g, 1, 3, 2, 4, 0, 2);
  }

  lemma ExampleVisible21(g: Grid<nat>)
    requires IsExample(g)
    ensures Visible(g, 2, 1)
  {
    assert g[2][2..] == [3, 3, 2];
    VisibleFromRight(g, 2, 1);
  }

  lemma ExampleHidden22(g: Grid<nat>)
    requires IsExample(g)
    ensures !Visible(g, 2, 2)
  {
    HiddenBehind(g, 2, 2, 1, 3, 1, 3);
  }

  lemma ExampleVisible23(g: Grid<nat>)
    requires IsExample(g)
    ensures Visible(g, 2, 3)
  {
    assert g[2][4..] == [2];
    VisibleFromRight(g, 2, 3);
  }

  lemma ExampleHidden31(g: Grid<nat>)
    requires IsExample(g)
    ensures !Visible(g, 3, 1)
  {
    HiddenBehind(g, 3, 1, 0, 2, 2, 4);
  }

  lemma ExampleVisible32(g: Grid<nat>)
    requires IsExample(g)
    ensures Visible(g, 3, 2)
  {
    assert g[3][..2] == [3, 3];
    VisibleFromLeft(g, 3, 2);
  }

  lemma ExampleHidden33(g: Grid<nat>)
    requires IsExample(g)
    ensures !Visible(g, 3, 3)
  {
    HiddenBehind(g, 3, 3, 2, 4, 0, 4);
  }

  lemma ExampleScore00(g: Grid<nat>)
    requires IsExample(g)
    ensures ScenicScore(g, 0, 0) == 4
  {
    ViewUpIs(g, 0, 0, 1); ViewDownIs(g, 0, 0, 2);
    ViewLeftIs(g, 0, 0, 1); ViewRightIs(g, 0, 0, 2);
  }

  lemma ExampleScore01(g: Grid<nat>)
    requires IsExample(g)
    ensures ScenicScore(g, 0, 1) == 1
  {
    ViewUpIs(g, 0, 1, 1); ViewDownIs(g, 0, 1, 1);
    ViewLeftIs(g, 0, 1, 1); ViewRightIs(g, 0, 1, 1);
  }

  lemma ExampleScore02(g: Grid<nat>)
    requires IsExample(g)
    ensures ScenicScore(g, 0, 2) == 2
  {
    ViewUpIs(g, 0, 2, 1); ViewDownIs(g, 0, 2, 1);
    ViewLeftIs(g, 0, 2, 2); ViewRightIs(g, 0, 2, 1);
  }

  lemma ExampleScore03(g: Grid<nat>)
    requires IsExample(g)
    ensures ScenicScore(g, 0, 3) == 12
  {
    ViewUpIs(g, 0, 3, 1); ViewDownIs(g, 0, 3, 4);
    ViewLeftIs(g, 0, 3, 3); ViewRightIs(g, 0, 3, 1);
  }

  lemma ExampleScore04(g: Grid<nat>)
    requires IsExample(g)
    ensures ScenicScore(g, 0, 4) == 3
  {
    ViewUpIs(g, 0, 4, 1); ViewDownIs(g, 0, 4, 3);
    ViewLeftIs(g, 0, 4, 1); ViewRightIs(g, 0, 4, 1);
  }

  lemma ExampleScore10(g: Grid<nat>)
    requires IsExample(g)
    ensures ScenicScore(g, 1, 0) == 1
  {
    ViewUpIs(g, 1, 0, 1); ViewDownIs(g, 1, 0, 1);
    ViewLeftIs(g, 1, 0, 1); ViewRightIs(g, 1, 0, 1);
  }

  lemma ExampleScore11(g: Grid<nat>)
    requires IsExample(g)
    ensures ScenicScore(g, 1, 1) == 1
  {
    ViewUpIs(g, 1, 1, 1); ViewDownIs(g, 1, 1, 1);
    ViewLeftIs(g, 1, 1, 1); ViewRightIs(g, 1, 1, 1);
  }

  lemma ExampleScore12(g: Grid<nat>)
    requires IsExample(g)
    ensures ScenicScore(g, 1, 2) == 4
  {
    ViewUpIs(g, 1, 2, 1); ViewDownIs(g, 1, 2, 2);
    ViewLeftIs(g, 1, 2, 1); ViewRightIs(g, 1, 2, 2);
  }

  lemma ExampleScore13(g: Grid<nat>)
    requires IsExample(g)
    ensures ScenicScore(g, 1, 3) == 1
  {
    ViewUpIs(g, 1, 3, 1); ViewDownIs(g, 1, 3, 1);
    ViewLeftIs(g, 1, 3, 1); ViewRightIs(g, 1, 3, 1);
  }

  lemma ExampleScore14(g: Grid<nat>)
    requires IsExample(g)
    ensures ScenicScore(g, 1, 4) == 2
  {
    ViewUpIs(g, 1, 4, 1); ViewDownIs(g, 1, 4, 1);
    ViewLeftIs(g, 1, 4, 2); ViewRightIs(g, 1, 4, 1);
  }

  lemma ExampleScore20(g: Grid<nat>)
    requires IsExample(g)
    ensures ScenicScore(g, 2, 0) == 16
  {
    ViewUpIs(g, 2, 0, 2); ViewDownIs(g, 2, 0, 2);
    ViewLeftIs(g, 2, 0, 1); ViewRightIs(g, 2, 0, 4);
  }

  lemma ExampleScore21(g: Grid<nat>)
    requires IsExample(g)
    ensures ScenicScore(g, 2, 1) == 6
  {
    ViewUpIs(g, 2, 1, 1); ViewDownIs(g, 2, 1, 2);
    ViewLeftIs(g, 2, 1, 1); ViewRightIs(g, 2, 1, 3);
  }

  lemma ExampleScore22(g: Grid<nat>)
    requires IsExample(g)
    ensures ScenicScore(g, 2, 2) == 1
  {
    ViewUpIs(g, 2, 2, 1); ViewDownIs(g, 2, 2, 1);
    ViewLeftIs(g, 2, 2, 1); ViewRightIs(g, 2, 2, 1);
  }

  lemma ExampleScore23(g: Grid<nat>)
    requires IsExample(g)
    ensures ScenicScore(g, 2, 3) == 2
  {
    ViewUpIs(g, 2, 3, 2); ViewDownIs(g, 2, 3, 1);
    ViewLeftIs(g, 2, 3, 1); ViewRightIs(g, 2, 3, 1);
  }

  lemma ExampleScore24(g: Grid<nat>)
    requires IsExample(g)
    ensures ScenicScore(g, 2, 4) == 1
  {
    ViewUpIs(g, 2, 4, 1); ViewDownIs(g, 2, 4, 1);
    ViewLeftIs(g, 2, 4, 1); ViewRightIs(g, 2, 4, 1);
  }

  lemma ExampleScore30(g: Grid<nat>)
    requires IsExample(g)
    ensures ScenicScore(g, 3, 0) == 1
  {
    ViewUpIs(g, 3, 0, 1); ViewDownIs(g, 3, 0, 1);
    ViewLeftIs(g, 3, 0, 1); ViewRightIs(g, 3, 0, 1);
  }

  lemma ExampleScore31(g: Grid<nat>)
    requires IsExample(g)
    ensures ScenicScore(g, 3, 1) == 1
  {
    ViewUpIs(g, 3, 1, 1); ViewDownIs(g, 3, 1, 1);
    ViewLeftIs(g, 3, 1, 1); ViewRightIs(g, 3, 1, 1);
  }

  lemma ExampleScore32(g: Grid<nat>)
    requires IsExample(g)
    ensures ScenicScore(g, 3, 2) == 8
  {
    ViewUpIs(g, 3, 2, 2); ViewDownIs(g, 3, 2, 1);
    ViewLeftIs(g, 3, 2, 2); ViewRightIs(g, 3, 2, 2);
  }

  lemma ExampleScore33(g: Grid<nat>)
    requires IsExample(g)
    ensures ScenicScore(g, 3, 3) == 3
  {
    ViewUpIs(g, 3, 3, 3); ViewDownIs(g, 3, 3, 1);
    ViewLeftIs(g, 3, 3, 1); ViewRightIs(g, 3, 3, 1);
  }

  lemma ExampleScore34(g: Grid<nat>)
    requires IsExample(g)
    ensures ScenicScore(g, 3, 4) == 12
  {
    ViewUpIs(g, 3, 4, 3); ViewDownIs(g, 3, 4, 1);
    ViewLeftIs(g, 3, 4, 4); ViewRightIs(g, 3, 4, 1);
  }

  lemma ExampleScore40(g: Grid<nat>)
    requires IsExample(g)
    ensures ScenicScore(g, 4, 0) == 1
  {
    ViewUpIs(g, 4, 0, 1); ViewDownIs(g, 4, 0, 1);
    ViewLeftIs(g, 4, 0, 1); ViewRightIs(g, 4, 0, 1);
  }

  lemma ExampleScore41(g: Grid<nat>)
    requires IsExample(g)
    ensures ScenicScore(g, 4, 1) == 4
  {
    ViewUpIs(g, 4, 1, 2); ViewDownIs(g, 4, 1, 1);
    ViewLeftIs(g, 4, 1, 1); ViewRightIs(g, 4, 1, 2);
  }

  lemma ExampleScore42(g: Grid<nat>)
    requires IsExample(g)
    ensures ScenicScore(g, 4, 2) == 1
  {
    ViewUpIs(g, 4, 2, 1); ViewDownIs(g, 4, 2, 1);
    ViewLeftIs(g, 4, 2, 1); ViewRightIs(g, 4, 2, 1);
  }

  lemma ExampleScore43(g: Grid<nat>)
    requires IsExample(g)
    ensures ScenicScore(g, 4, 3) == 12
  {
    ViewUpIs(g, 4, 3, 4); ViewDownIs(g, 4, 3, 1);
    ViewLeftIs(g, 4, 3, 3); ViewRightIs(g, 4, 3, 1);
  }

  lemma ExampleScore44(g: Grid<nat>)
    requires IsExample(g)
    ensures ScenicScore(g, 4, 4) == 1
  {
    ViewUpIs(g, 4, 4, 1); ViewDownIs(g, 4, 4, 1);
    ViewLeftIs(g, 4, 4, 1); ViewRightIs(g, 4, 4, 1);
  }


  /** The trees of the example that `visible_trees` finds hidden: four of
      the nine interior ones. */
  predicate ExampleHidden(r: nat, c: nat)
  {
    (r == 1 && c == 3) || (r == 2 && c == 2) || (r == 3 && c == 1) || (r == 3 && c == 3)
  }

  /** The grid `visible_trees` returns for the example. */
  const ExampleVisibility: Grid<bool> :=
    [[true, true, true, true, true],
     [true, true, true, false, true],
     [true, true, false, true, true],
     [true, false, true, false, true],
     [true, true, true, true, true]]

  lemma ExampleVisibilityCells()
    ensures forall r, c | 0 <= r < 5 && 0 <= c < 5 :: ExampleVisibility[r][c] == !ExampleHidden(r, c)
  {
    forall r | 0 <= r < 5
      ensures forall c | 0 <= c < 5 :: ExampleVisibility[r][c] == !ExampleHidden(r, c)
    {
      if r == 0 {
        assert ExampleVisibility[0] == [true, true, true, true, true];
      } else if r == 1 {
        assert ExampleVisibility[1] == [true, true, true, false, true];
      } else if r == 2 {
        assert ExampleVisibility[2] == [true, true, false, true, true];
      } else if r == 3 {
        assert ExampleVisibility[3] == [true, false, true, false, true];
      } else {
        assert ExampleVisibility[4] == [true, true, true, true, true];
      }
    }
  }

  lemma ExampleVisibleAt(g: Grid<nat>, r: nat, c: nat)
    requires IsExample(g) && r < 5 && c < 5
    ensures Visible(g, r, c) == !ExampleHidden(r, c)
  {
    if r == 0 || r == 4 || c == 0 || c == 4 {
      BorderVisible(g, r, c);
    } else {
      ExampleInteriorAt(g, r, c);
    }
  }

  lemma ExampleInteriorAt(g: Grid<nat>, r: nat, c: nat)
    requires IsExample(g) && 1 <= r <= 3 && 1 <= c <= 3
    ensures Visible(g, r, c) == !ExampleHidden(r, c)
  {
    if r == 1 && c == 1 {
      ExampleVisible11(g);
    } else if r == 1 && c == 2 {
      ExampleVisible12(g);
    } else if r == 1 && c == 3 {
      ExampleHidden13(g);
    } else if r == 2 && c == 1 {
      ExampleVisible21(g);
    } else if r == 2 && c == 2 {
      ExampleHidden22(g);
    } else if r == 2 && c == 3 {
      ExampleVisible23(g);
    } else if r == 3 && c == 1 {
      ExampleHidden31(g);
    } else if r == 3 && c == 2 {
      ExampleVisible32(g);
    } else {
      ExampleHidden33(g);
    }
  }

  /** `test_example1`: 21 trees of the example are visible. */
  lemma ExampleVisibleCount(g: Grid<nat>)
    requires IsExample(g)
    ensures VisibleGrid(g) == ExampleVisibility && VisibleCount(g) == 21
  {
    var v := VisibleGrid(g);
    ExampleVisibilityCells();
    forall r | 0 <= r < 5
      ensures v[r] == ExampleVisibility[r]
    {
      forall c | 0 <= c < 5
        ensures v[r][c] == ExampleVisibility[r][c]
      {
        ExampleVisibleAt(g, r, c);
      }
    }
  }

  lemma ExampleScoreAt(g: Grid<nat>, r: nat, c: nat)
    requires IsExample(g) && r < 5 && c < 5
    ensures ScenicScore(g, r, c) <= 16
  {
    if r == 0 && c == 0 {
      ExampleScore00(g);
    } else if r == 0 && c == 1 {
      ExampleScore01(g);
    } else if r == 0 && c == 2 {
      ExampleScore02(g);
    } else if r == 0 && c == 3 {
      ExampleScore03(g);
    } else if r == 0 && c == 4 {
      ExampleScore04(g);
    } else if r == 1 && c == 0 {
      ExampleScore10(g);
    } else if r == 1 && c == 1 {
      ExampleScore11(g);
    } else if r == 1 && c == 2 {
      ExampleScore12(g);
    } else if r == 1 && c == 3 {
      ExampleScore13(g);
    } else if r == 1 && c == 4 {
      ExampleScore14(g);
    } else if r == 2 && c == 0 {
      ExampleScore20(g);
    } else if r == 2 && c == 1 {
      ExampleScore21(g);
    } else if r == 2 && c == 2 {
      ExampleScore22(g);
    } else if r == 2 && c == 3 {
      ExampleScore23(g);
    } else if r == 2 && c == 4 {
      ExampleScore24(g);
    } else if r == 3 && c == 0 {
      ExampleScore30(g);
    } else if r == 3 && c == 1 {
      ExampleScore31(g);
    } else if r == 3 && c == 2 {
      ExampleScore32(g);
    } else if r == 3 && c == 3 {
      ExampleScore33(g);
    } else if r == 3 && c == 4 {
      ExampleScore34(g);
    } else if r == 4 && c == 0 {
      ExampleScore40(g);
    } else if r == 4 && c == 1 {
      ExampleScore41(g);
    } else if r == 4 && c == 2 {
      ExampleScore42(g);
    } else if r == 4 && c == 3 {
      ExampleScore43(g);
    } else {
      ExampleScore44(g);
    }
  }

  /** `test_example2`: the example's best score is 16, scored by the tree on
      the left edge of the middle row. */
  lemma ExampleBestScore(g: Grid<nat>)
    requires IsExample(g)
    ensures IsBestScore(g, 16) && ScenicScore(g, 2, 0) == 16
  {
    forall r, c | 0 <= r < 5 && 0 <= c < 5
      ensures ScenicScore(g, r, c) <= 16
    {
      ExampleScoreAt(g, r, c);
    }
    ExampleScore20(g);
  }

  /** Parsing the example text yields the example forest. */
  lemma ExampleParses()
    ensures Readable(ExampleLines) && IsExample(ParseForest(ExampleLines))
  {
  }

  /** Both answers for the example text: 21 visible trees and a best score of
      16. */
  lemma Example()
    ensures Readable(ExampleLines)
    ensures var g := ParseForest(ExampleLines);
      HasWidth(g) && VisibleCount(g) == 21 && IsBestScore(g, 16)
  {
    ExampleParses();
    var g := ParseForest(ExampleLines);
    ExampleVisibleCount(g);
    ExampleBestScore(g);
  }
}
