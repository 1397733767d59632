/**
 * The dense matrix of the network code: a flat buffer with a row count, a
 * column count and a rank tag saying whether the buffer is laid out row by
 * row or column by column. Elements are modelled as reals.
 *
 * `Mat` is the value of a matrix; `Matrix` is the object whose rank and
 * buffer the operations update in place.
 */
module Matrices {
  import opened Arith

  /** The storage order of a matrix buffer (`Matrix::Rank`). */
  datatype Rank = Row | Column

  /** The other storage order. */
  function Flip(k: Rank): (f: Rank)
    ensures f != k
  {
    if k == Row then Column else Row
  }

  /** A cell inside an m x n grid laid out row by row lies inside the buffer. */
  lemma CellBelow(r: int, c: int, m: int, n: int)
    requires 0 <= r < m && 0 <= c < n
    ensures 0 <= r * n + c < m * n
  {
    MulAtLeast(m - r, n);
    assert (m - r) * n == m * n - r * n;
  }

  /**
   * Where logical cell (r, c) lives in the buffer: `r * cols + c` for row
   * rank, `c * rows + r` for column rank; always inside `[0, rows * cols)`.
   */
  function Offset(k: Rank, rows: int, cols: int, r: int, c: int): (o: int)
    requires 0 <= r < rows && 0 <= c < cols
    ensures 0 <= o < rows * cols
  {
    CellBelow(r, c, rows, cols);
    CellBelow(c, r, cols, rows);
    if k == Row then r * cols + c else c * rows + r
  }

  /** Row-major index arithmetic: offset q of an m x n grid is cell (q / n, q % n), and back. */
  lemma RowMajorCell(q: int, m: int, n: int)
    requires 0 <= q < m * n && 0 <= m && 0 <= n
    ensures 0 < n && 0 <= q / n < m && 0 <= q % n < n && (q / n) * n + q % n == q
  {
    if q / n >= m {
      MulAtLeast(q / n - m + 1, n);
    }
  }

  /** Different cells of the same grid never share an offset. */
  lemma {:induction false} OffsetInjective(k: Rank, rows: int, cols: int, r: int, c: int, r': int, c': int)
    requires 0 <= r < rows && 0 <= c < cols && 0 <= r' < rows && 0 <= c' < cols
    requires Offset(k, rows, cols, r, c) == Offset(k, rows, cols, r', c')
    ensures r == r' && c == c'
  {
    if k == Row {
      DivUnique(r * cols + c, cols, r, c);
      DivUnique(r' * cols + c', cols, r', c');
    } else {
      DivUnique(c * rows + r, rows, c, r);
      DivUnique(c' * rows + r', rows, c', r');
    }
  }

  /** Every buffer position is the offset of some cell, so the layout is a bijection. */
  lemma OffsetOnto(k: Rank, rows: int, cols: int, q: int)
    requires 0 <= rows && 0 <= cols && 0 <= q < rows * cols
    ensures exists r, c :: 0 <= r < rows && 0 <= c < cols && Offset(k, rows, cols, r, c) == q
  {
    if k == Row {
      RowMajorCell(q, rows, cols);
      assert Offset(k, rows, cols, q / cols, q % cols) == q;
    } else {
      assert rows * cols == cols * rows;
      RowMajorCell(q, cols, rows);
      assert Offset(k, rows, cols, q % rows, q / rows) == q;
    }
  }

  /** The value of a matrix: its shape, its rank tag and its flat buffer. */
  datatype Mat = Mat(rows: int, cols: int, rank: Rank, elements: seq<real>)
  {
    /** The buffer holds exactly `rows * cols` elements. */
    predicate Valid() {
      0 <= rows && 0 <= cols && |elements| == rows * cols
    }

    /** The element at logical cell (r, c), read through the layout of the rank. */
    function At(r: int, c: int): (v: real)
      requires Valid() && 0 <= r < rows && 0 <= c < cols
    {
      elements[Offset(rank, rows, cols, r, c)]
    }

    /** Logical row i. */
    function RowOf(i: int): (v: seq<real>)
      requires Valid() && 0 <= i < rows
      ensures |v| == cols && forall k :: 0 <= k < cols ==> v[k] == At(i, k)
    {
      seq(cols, k requires 0 <= k < cols => At(i, k))
    }

    /** Logical column j. */
    function ColumnOf(j: int): (v: seq<real>)
      requires Valid() && 0 <= j < cols
      ensures |v| == rows && forall k :: 0 <= k < rows ==> v[k] == At(k, j)
    {
      seq(rows, k requires 0 <= k < rows => At(k, j))
    }
  }

  /** All elements are zero. */
  predicate IsZero(s: seq<real>) {
    forall q :: 0 <= q < |s| ==> s[q] == 0.0
  }

  /** An m x n matrix of the given rank whose buffer is all zeros. */
  function Zero(m: int, n: int, k: Rank): (z: Mat)
    requires 0 <= m && 0 <= n
    ensures z.Valid() && z.rows == m && z.cols == n && z.rank == k && IsZero(z.elements)
  {
    assert m * n >= 0 by {
      if m > 0 && n > 0 { MulAtLeast(m, n); }
    }
    Mat(m, n, k, seq(m * n, _ => 0.0))
  }

  /** `a[0] * b[0] + ... + a[|a|-1] * b[|a|-1]`, accumulated from left to right. */
  function InnerProduct(a: seq<real>, b: seq<real>): (r: real)
    requires |a| <= |b|
    decreases |a|
  {
    if |a| == 0 then 0.0 else InnerProduct(a[..|a| - 1], b) + a[|a| - 1] * b[|a| - 1]
  }

  /**
   * The product: a row-rank `a.rows x b.cols` matrix whose cell (i, j) is
   * the inner product of row i of a and column j of b (ProductAt). The
   * shapes are not checked against each other: when a has fewer columns
   * than b has rows, only the first a.cols rows of b take part.
   */
  function Product(a: Mat, b: Mat): (p: Mat)
    requires a.Valid() && b.Valid() && a.cols <= b.rows
    ensures p.Valid() && p.rows == a.rows && p.cols == b.cols && p.rank == Row
  {
    var m, n := a.rows, b.cols;
    assert m * n >= 0 by {
      if m > 0 && n > 0 { MulAtLeast(m, n); }
    }
    Mat(m, n, Row, seq(m * n, q requires 0 <= q < m * n =>
      RowMajorCell(q, m, n);
      InnerProduct(a.RowOf(q / n), b.ColumnOf(q % n))))
  }

  /** The tolerance of `operator==`. */
  const Tolerance: real := 0.00001

  function Abs(x: real): (r: real) {
    if x < 0.0 then -x else x
  }

  /** Two elements within the tolerance of each other. */
  predicate Near(x: real, y: real) {
    Abs(x - y) <= Tolerance
  }

  /**
   * `operator==`: the same shape, and the buffers agree position by
   * position within the tolerance; the rank tags play no part.
   */
  function Close(a: Mat, b: Mat): (r: bool)
    requires a.Valid() && b.Valid()
    ensures r ==> a.rows == b.rows && a.cols == b.cols && |a.elements| == |b.elements|
    ensures r && a.rank == b.rank ==> NearCells(a, b)
  {
    var r := && a.rows == b.rows && a.cols == b.cols
             && forall q :: 0 <= q < |a.elements| ==> Near(a.elements[q], b.elements[q]);
    if r && a.rank == b.rank then CellsFromBuffers(a, b); r else r
  }

  /** Two matrices of one shape whose cells are pairwise within the tolerance. */
  predicate NearCells(a: Mat, b: Mat)
    requires a.Valid() && b.Valid()
  {
    && a.rows == b.rows && a.cols == b.cols
    && forall i, j :: 0 <= i < a.rows && 0 <= j < a.cols ==> Near(a.At(i, j), b.At(i, j))
  }

  /** Under one layout, buffers within the tolerance position by position hold cells within it. */
  lemma CellsFromBuffers(a: Mat, b: Mat)
    requires a.Valid() && b.Valid() && a.rows == b.rows && a.cols == b.cols && a.rank == b.rank
    requires forall q :: 0 <= q < |a.elements| ==> Near(a.elements[q], b.elements[q])
    ensures NearCells(a, b)
  {
    forall i, j | 0 <= i < a.rows && 0 <= j < a.cols
      ensures Near(a.At(i, j), b.At(i, j))
    {
      var q := Offset(a.rank, a.rows, a.cols, i, j);
      assert a.At(i, j) == a.elements[q] && b.At(i, j) == b.elements[q];
    }
  }

  // The product

  /** Cell (i, j) of a product is the inner product of row i of the left factor and column j of the right one. */
  lemma ProductAt(a: Mat, b: Mat, i: int, j: int)
    requires a.Valid() && b.Valid() && a.cols <= b.rows
    requires 0 <= i < a.rows && 0 <= j < b.cols
    ensures Product(a, b).At(i, j) == InnerProduct(a.RowOf(i), b.ColumnOf(j))
  {
    var n := b.cols;
    CellBelow(i, j, a.rows, n);
    DivUnique(i * n + j, n, i, j);
  }

  /** Cell (i, j) of a product sits at position i * n + j of its buffer. */
  lemma ProductCell(a: Mat, b: Mat, i: int, j: int)
    requires a.Valid() && b.Valid() && a.cols <= b.rows
    requires 0 <= i < a.rows && 0 <= j < b.cols
    ensures 0 <= i * b.cols + j < |Product(a, b).elements|
    ensures Product(a, b).elements[i * b.cols + j] == InnerProduct(a.RowOf(i), b.ColumnOf(j))
  {
    ProductAt(a, b, i, j);
    CellBelow(i, j, a.rows, b.cols);
  }

  /** The first t positions of two buffers hold the same values. */
  predicate Agrees(e: seq<real>, f: seq<real>, t: int)
  {
    0 <= t <= |e| && t <= |f| && forall q :: 0 <= q < t ==> e[q] == f[q]
  }

  /** Writing f's value at position t extends the agreeing prefix by one. */
  lemma AgreesStep(e: seq<real>, f: seq<real>, t: int, v: real)
    requires Agrees(e, f, t) && t < |e| && t < |f| && v == f[t]
    ensures Agrees(e[t := v], f, t + 1)
  {
  }

  /** Writing cell (i, j) of a product into a row-rank buffer that agrees with it before that cell. */
  lemma ProductStep(x: Mat, y: Mat, p: Mat, before: seq<real>, after: seq<real>, i: int, j: int, sum: real)
    requires x.Valid() && y.Valid() && x.cols <= y.rows && p == Product(x, y)
    requires 0 <= i < x.rows && 0 <= j < y.cols
    requires |before| == |p.elements| && i * y.cols + j < |before|
    requires Agrees(before, p.elements, i * y.cols + j)
    requires sum == InnerProduct(x.RowOf(i), y.ColumnOf(j))
    requires after == before[i * y.cols + j := sum]
    ensures Agrees(after, p.elements, i * y.cols + j + 1)
  {
    ProductCell(x, y, i, j);
    AgreesStep(before, p.elements, i * y.cols + j, sum);
  }

  /** Two row-rank matrices of one shape that agree on every cell are the same value. */
  lemma RowMajorEqual(x: Mat, y: Mat)
    requires x.Valid() && y.Valid() && x.rank == Row && y.rank == Row
    requires x.rows == y.rows && x.cols == y.cols
    requires forall i, j :: 0 <= i < x.rows && 0 <= j < x.cols ==> x.At(i, j) == y.At(i, j)
    ensures x == y
  {
    forall q | 0 <= q < |x.elements|
      ensures x.elements[q] == y.elements[q]
    {
      RowMajorCell(q, x.rows, x.cols);
      assert x.At(q / x.cols, q % x.cols) == x.elements[q];
    }
  }

  /** Two matrices of one shape holding the same value in every cell, whatever their layouts. */
  predicate SameCells(x: Mat, y: Mat)
    requires x.Valid() && y.Valid()
  {
    && x.rows == y.rows && x.cols == y.cols
    && forall i, j :: 0 <= i < x.rows && 0 <= j < x.cols ==> x.At(i, j) == y.At(i, j)
  }

  /**
   * The product reads its factors only through the rank-aware accessor: it
   * depends on their cells and not on how their buffers are laid out.
   */
  lemma ProductReadsCells(a: Mat, a': Mat, b: Mat, b': Mat)
    requires a.Valid() && a'.Valid() && b.Valid() && b'.Valid() && a.cols <= b.rows
    requires SameCells(a, a') && SameCells(b, b')
    ensures Product(a, b) == Product(a', b')
  {
    var p, p' := Product(a, b), Product(a', b');
    forall i, j | 0 <= i < a.rows && 0 <= j < b.cols
      ensures p.At(i, j) == p'.At(i, j)
    {
      ProductAt(a, b, i, j);
      ProductAt(a', b', i, j);
      assert a.RowOf(i) == a'.RowOf(i);
      assert b.ColumnOf(j) == b'.ColumnOf(j);
    }
    RowMajorEqual(p, p');
  }

  /** A product with an all-zero right factor is all zeros. */
  lemma ProductZeroRight(a: Mat, b: Mat)
    requires a.Valid() && b.Valid() && a.cols <= b.rows && IsZero(b.elements)
    ensures IsZero(Product(a, b).elements)
  {
    var p := Product(a, b);
    forall q | 0 <= q < |p.elements|
      ensures p.elements[q] == 0.0
    {
      RowMajorCell(q, a.rows, b.cols);
      InnerProductZeroRight(a.RowOf(q / b.cols), b.ColumnOf(q % b.cols));
    }
  }

  /** A product with an all-zero left factor is all zeros. */
  lemma ProductZeroLeft(a: Mat, b: Mat)
    requires a.Valid() && b.Valid() && a.cols <= b.rows && IsZero(a.elements)
    ensures IsZero(Product(a, b).elements)
  {
    var p := Product(a, b);
    forall q | 0 <= q < |p.elements|
      ensures p.elements[q] == 0.0
    {
      RowMajorCell(q, a.rows, b.cols);
      InnerProductZeroLeft(a.RowOf(q / b.cols), b.ColumnOf(q % b.cols));
    }
  }

  lemma {:induction false} InnerProductZeroRight(u: seq<real>, v: seq<real>)
    requires |u| <= |v| && IsZero(v)
    ensures InnerProduct(u, v) == 0.0
    decreases |u|
  {
    if |u| > 0 {
      InnerProductZeroRight(u[..|u| - 1], v);
    }
  }

  lemma {:induction false} InnerProductZeroLeft(u: seq<real>, v: seq<real>)
    requires |u| <= |v| && IsZero(u)
    ensures InnerProduct(u, v) == 0.0
    decreases |u|
  {
    if |u| > 0 {
      InnerProductZeroLeft(u[..|u| - 1], v);
    }
  }

  // Associativity
  //
  // Entry (i, l) of both groupings is the sum over the grid of the terms
  // a[i][k] * b[k][j] * c[j][l]: (a b) c sums the grid column by column,
  // a (b c) row by row. The proof works on plain sequences: the row u of a,
  // the rows rs and columns cs of b, and the column w of c.

  /** The sum of a sequence of reals, left to right. */
  function Sum(p: seq<real>): (r: real)
    decreases |p|
  {
    if |p| == 0 then 0.0 else Sum(p[..|p| - 1]) + p[|p| - 1]
  }

  /** p holds the term-by-term products of a and b. */
  predicate Products(a: seq<real>, b: seq<real>, p: seq<real>) {
    |a| == |p| <= |b| && forall k :: 0 <= k < |p| ==> p[k] == a[k] * b[k]
  }

  /** The inner product is the sum of the term-by-term products. */
  lemma {:induction false} InnerProductIsSum(a: seq<real>, b: seq<real>, p: seq<real>)
    requires Products(a, b, p)
    ensures InnerProduct(a, b) == Sum(p)
    decreases |p|
  {
    if |p| > 0 {
      var n := |p| - 1;
      assert Products(a[..n], b, p[..n]);
      InnerProductIsSum(a[..n], b, p[..n]);
    }
  }

  /** q is p scaled by x. */
  predicate Scaled(x: real, p: seq<real>, q: seq<real>) {
    |p| == |q| && forall k :: 0 <= k < |p| ==> q[k] == x * p[k]
  }

  /** Scaling every term scales the sum. */
  lemma {:induction false} SumScaled(x: real, p: seq<real>, q: seq<real>)
    requires Scaled(x, p, q)
    ensures Sum(q) == x * Sum(p)
    decreases |p|
  {
    if |p| > 0 {
      var n := |p| - 1;
      assert Scaled(x, p[..n], q[..n]);
      SumScaled(x, p[..n], q[..n]);
      assert x * Sum(p) == x * Sum(p[..n]) + x * p[n];
    }
  }

  /** The sum of a sequence of zeros is zero. */
  lemma {:induction false} SumZero(p: seq<real>)
    requires forall k :: 0 <= k < |p| ==> p[k] == 0.0
    ensures Sum(p) == 0.0
    decreases |p|
  {
    if |p| > 0 {
      SumZero(p[..|p| - 1]);
    }
  }

  /** Adding term by term adds the sums. */
  lemma {:induction false} SumAdd(p: seq<real>, q: seq<real>, r: seq<real>)
    requires |p| == |q| == |r| && forall k :: 0 <= k < |r| ==> r[k] == p[k] + q[k]
    ensures Sum(r) == Sum(p) + Sum(q)
    decreases |r|
  {
    if |r| > 0 {
      var n := |r| - 1;
      SumAdd(p[..n], q[..n], r[..n]);
    }
  }

  /** Every row of g has n entries. */
  predicate Grid(g: seq<seq<real>>, n: nat) {
    forall k :: 0 <= k < |g| ==> |g[k]| == n
  }

  /** Entry j of every row: column j of g. */
  function Across(g: seq<seq<real>>, j: nat): (v: seq<real>)
    requires forall k :: 0 <= k < |g| ==> j < |g[k]|
    ensures |v| == |g| && forall k :: 0 <= k < |g| ==> v[k] == g[k][j]
  {
    seq(|g|, k requires 0 <= k < |g| => g[k][j])
  }

  /** The sum of each row of g. */
  function RowSums(g: seq<seq<real>>): (s: seq<real>)
    ensures |s| == |g| && forall k :: 0 <= k < |g| ==> s[k] == Sum(g[k])
  {
    seq(|g|, k requires 0 <= k < |g| => Sum(g[k]))
  }

  /** The sum of each of the n columns of g. */
  function ColumnSums(g: seq<seq<real>>, n: nat): (s: seq<real>)
    requires Grid(g, n)
    ensures |s| == n && forall j :: 0 <= j < n ==> s[j] == Sum(Across(g, j))
  {
    seq(n, j requires 0 <= j < n => Sum(Across(g, j)))
  }

  /** Summing a grid row by row or column by column gives the same total. */
  lemma {:induction false} SumSwap(g: seq<seq<real>>, n: nat)
    requires Grid(g, n)
    ensures Sum(RowSums(g)) == Sum(ColumnSums(g, n))
    decreases |g|
  {
    if |g| == 0 {
      SumZero(ColumnSums(g, n));
    } else {
      var m := |g| - 1;
      var g' := g[..m];
      SumSwap(g', n);
      assert RowSums(g)[..m] == RowSums(g');
      forall j | 0 <= j < n
        ensures ColumnSums(g, n)[j] == ColumnSums(g', n)[j] + g[m][j]
      {
        assert Across(g, j)[..m] == Across(g', j);
      }
      SumAdd(ColumnSums(g', n), g[m], ColumnSums(g, n));
    }
  }

  /**
   * The rows and the columns of one `m x n` matrix, as plain sequences:
   * entry j of row k is entry k of column j.
   */
  predicate Lines(m: nat, n: nat, rs: seq<seq<real>>, cs: seq<seq<real>>)
  {
    && |rs| == m && |cs| == n
    && (forall k :: 0 <= k < m ==> |rs[k]| == n)
    && (forall j :: 0 <= j < n ==> |cs[j]| == m)
    && forall k, j :: 0 <= k < m && 0 <= j < n ==> rs[k][j] == cs[j][k]
  }

  /** Row vector u times the matrix with columns cs. */
  function VecMat(u: seq<real>, cs: seq<seq<real>>): (v: seq<real>)
    requires forall j :: 0 <= j < |cs| ==> |cs[j]| == |u|
    ensures |v| == |cs| && forall j :: 0 <= j < |cs| ==> v[j] == InnerProduct(u, cs[j])
  {
    seq(|cs|, j requires 0 <= j < |cs| => InnerProduct(u, cs[j]))
  }

  /** The matrix with rows rs times column vector w. */
  function MatVec(rs: seq<seq<real>>, w: seq<real>): (v: seq<real>)
    requires forall k :: 0 <= k < |rs| ==> |rs[k]| == |w|
    ensures |v| == |rs| && forall k :: 0 <= k < |rs| ==> v[k] == InnerProduct(rs[k], w)
  {
    seq(|rs|, k requires 0 <= k < |rs| => InnerProduct(rs[k], w))
  }

  /** g[k][j] is u[k] * b[k][j] * w[j], where rs and cs are the rows and the columns of b. */
  predicate Spread(g: seq<seq<real>>, u: seq<real>, rs: seq<seq<real>>, cs: seq<seq<real>>, w: seq<real>) {
    && Lines(|u|, |w|, rs, cs) && |g| == |u| && Grid(g, |w|)
    && forall k, j :: 0 <= k < |u| && 0 <= j < |w| ==> g[k][j] == u[k] * (rs[k][j] * w[j])
  }

  /** s[k] is x * a[k] * b[k]. */
  predicate ScaledProducts(s: seq<real>, x: real, a: seq<real>, b: seq<real>) {
    |s| == |a| == |b| && forall k :: 0 <= k < |s| ==> s[k] == x * (a[k] * b[k])
  }

  /** The terms x * a[k] * b[k] sum to x times the inner product of a and b. */
  lemma ScaledProductsSum(s: seq<real>, x: real, a: seq<real>, b: seq<real>)
    requires ScaledProducts(s, x, a, b)
    ensures Sum(s) == x * InnerProduct(a, b)
  {
    var p := seq(|a|, k requires 0 <= k < |a| => a[k] * b[k]);
    assert Products(a, b, p);
    InnerProductIsSum(a, b, p);
    assert Scaled(x, p, s) by {
      forall k | 0 <= k < |p|
        ensures s[k] == x * p[k]
      {
        assert p[k] == a[k] * b[k];
      }
    }
    SumScaled(x, p, s);
  }

  lemma Rearrange(a: real, b: real, c: real, b': real)
    requires b == b'
    ensures a * (b * c) == c * (a * b')
  {
  }

  /** Column j of the grid holds w[j] * u[k] * b[k][j]. */
  lemma SpreadColumnTerms(g: seq<seq<real>>, u: seq<real>, rs: seq<seq<real>>, cs: seq<seq<real>>, w: seq<real>, j: nat)
    requires Spread(g, u, rs, cs, w) && j < |w|
    ensures ScaledProducts(Across(g, j), w[j], u, cs[j])
  {
    forall k | 0 <= k < |u|
      ensures Across(g, j)[k] == w[j] * (u[k] * cs[j][k])
    {
      Rearrange(u[k], rs[k][j], w[j], cs[j][k]);
    }
  }

  /** Row k of g sums to u[k] * v[k]. */
  predicate RowsSumTo(g: seq<seq<real>>, u: seq<real>, v: seq<real>) {
    |g| == |u| == |v| && forall k :: 0 <= k < |u| ==> Sum(g[k]) == u[k] * v[k]
  }

  /** Column j of g sums to v[j] * w[j]. */
  predicate ColumnsSumTo(g: seq<seq<real>>, v: seq<real>, w: seq<real>) {
    Grid(g, |w|) && |v| == |w| && forall j :: 0 <= j < |w| ==> Sum(Across(g, j)) == v[j] * w[j]
  }

  lemma SpreadRows(g: seq<seq<real>>, u: seq<real>, rs: seq<seq<real>>, cs: seq<seq<real>>, w: seq<real>)
    requires Spread(g, u, rs, cs, w)
    ensures RowsSumTo(g, u, MatVec(rs, w))
  {
    forall k | 0 <= k < |u|
      ensures Sum(g[k]) == u[k] * MatVec(rs, w)[k]
    {
      assert ScaledProducts(g[k], u[k], rs[k], w);
      ScaledProductsSum(g[k], u[k], rs[k], w);
    }
  }

  lemma SpreadColumns(g: seq<seq<real>>, u: seq<real>, rs: seq<seq<real>>, cs: seq<seq<real>>, w: seq<real>)
    requires Spread(g, u, rs, cs, w)
    ensures ColumnsSumTo(g, VecMat(u, cs), w)
  {
    forall j | 0 <= j < |w|
      ensures Sum(Across(g, j)) == VecMat(u, cs)[j] * w[j]
    {
      SpreadColumnTerms(g, u, rs, cs, w, j);
      ScaledProductsSum(Across(g, j), w[j], u, cs[j]);
    }
  }

  /** The grid of u, b and w, with its row sums and its column sums. */
  lemma SpreadGrid(u: seq<real>, rs: seq<seq<real>>, cs: seq<seq<real>>, w: seq<real>) returns (g: seq<seq<real>>)
    requires Lines(|u|, |w|, rs, cs)
    ensures RowsSumTo(g, u, MatVec(rs, w)) && ColumnsSumTo(g, VecMat(u, cs), w)
  {
    var m, n := |u|, |w|;
    g := seq(m, k requires 0 <= k < m => seq(n, j requires 0 <= j < n => u[k] * (rs[k][j] * w[j])));
    SpreadRows(g, u, rs, cs, w);
    SpreadColumns(g, u, rs, cs, w);
  }

  /** A grid whose rows sum to u times v and whose columns sum to v' times w. */
  lemma GridTotals(g: seq<seq<real>>, u: seq<real>, v: seq<real>, v': seq<real>, w: seq<real>)
    requires RowsSumTo(g, u, v) && ColumnsSumTo(g, v', w)
    ensures InnerProduct(v', w) == InnerProduct(u, v)
  {
    InnerProductIsSum(u, v, RowSums(g));
    InnerProductIsSum(v', w, ColumnSums(g, |w|));
    SumSwap(g, |w|);
  }

  /** `(u b) w == u (b w)` for a row vector u, a matrix b and a column vector w. */
  lemma RowMatrixColumn(u: seq<real>, rs: seq<seq<real>>, cs: seq<seq<real>>, w: seq<real>)
    requires Lines(|u|, |w|, rs, cs)
    ensures InnerProduct(VecMat(u, cs), w) == InnerProduct(u, MatVec(rs, w))
  {
    var g := SpreadGrid(u, rs, cs, w);
    GridTotals(g, u, MatVec(rs, w), VecMat(u, cs), w);
  }

  /** The inner product over the first t entries of u is the one over t-1 entries plus the last term. */
  lemma InnerProductStep(u: seq<real>, t: nat, v: seq<real>)
    requires 0 < t <= |u| <= |v|
    ensures InnerProduct(u[..t], v) == InnerProduct(u[..t - 1], v) + u[t - 1] * v[t - 1]
  {
    assert u[..t][..t - 1] == u[..t - 1];
  }

  /** One more term of an inner product accumulated from left to right. */
  lemma AccumulateStep(u: seq<real>, v: seq<real>, k: int, sum: real, x: real, y: real)
    requires 0 <= k < |u| <= |v| && sum == InnerProduct(u[..k], v) && x == u[k] && y == v[k]
    ensures sum + x * y == InnerProduct(u[..k + 1], v)
  {
    InnerProductStep(u, k + 1, v);
  }

  /** The rows and the columns of a valid matrix. */
  lemma MatLines(b: Mat) returns (rs: seq<seq<real>>, cs: seq<seq<real>>)
    requires b.Valid()
    ensures Lines(b.rows, b.cols, rs, cs)
    ensures forall k :: 0 <= k < b.rows ==> rs[k] == b.RowOf(k)
    ensures forall j :: 0 <= j < b.cols ==> cs[j] == b.ColumnOf(j)
  {
    rs := seq(b.rows, k requires 0 <= k < b.rows => b.RowOf(k));
    cs := seq(b.cols, j requires 0 <= j < b.cols => b.ColumnOf(j));
  }

  /** The product is associative (exactly, over the reals). */
  lemma ProductAssociative(a: Mat, b: Mat, c: Mat)
    requires a.Valid() && b.Valid() && c.Valid() && a.cols == b.rows && b.cols == c.rows
    ensures Product(Product(a, b), c) == Product(a, Product(b, c))
  {
    var ab, bc := Product(a, b), Product(b, c);
    var lhs, rhs := Product(ab, c), Product(a, bc);
    var rs, cs := MatLines(b);
    forall i, l | 0 <= i < a.rows && 0 <= l < c.cols
      ensures lhs.At(i, l) == rhs.At(i, l)
    {
      var u, w := a.RowOf(i), c.ColumnOf(l);
      ProductAt(ab, c, i, l);
      ProductAt(a, bc, i, l);
      assert ab.RowOf(i) == VecMat(u, cs) by {
        forall j | 0 <= j < b.cols
          ensures ab.RowOf(i)[j] == VecMat(u, cs)[j]
        {
          ProductAt(a, b, i, j);
        }
      }
      assert bc.ColumnOf(l) == MatVec(rs, w) by {
        forall k | 0 <= k < b.rows
          ensures bc.ColumnOf(l)[k] == MatVec(rs, w)[k]
        {
          ProductAt(b, c, k, l);
        }
      }
      RowMatrixColumn(u, rs, cs, w);
    }
    RowMajorEqual(lhs, rhs);
  }

  // Equality within the tolerance

  lemma CloseReflexive(a: Mat)
    requires a.Valid()
    ensures Close(a, a)
  {
  }

  lemma CloseSymmetric(a: Mat, b: Mat)
    requires a.Valid() && b.Valid()
    ensures Close(a, b) == Close(b, a)
  {
  }

  /** A matrix compares equal to its own transposed copy: the rank tag is ignored. */
  lemma CloseIgnoresRank(a: Mat)
    requires a.Valid()
    ensures Close(a, a.(rank := Flip(a.rank)))
  {
  }

  /**
   * Equality compares buffers, not cells. The same buffer read row by row
   * and column by column compares equal although cell (0, 1) differs; the
   * same cells laid out in the two orders compare unequal.
   */
  lemma CloseComparesBuffers()
    ensures var a := Mat(2, 2, Row, [1.0, 2.0, 3.0, 4.0]);
            var c := Mat(2, 2, Column, [1.0, 2.0, 3.0, 4.0]);
            var d := Mat(2, 2, Column, [1.0, 3.0, 2.0, 4.0]);
            && Close(a, c) && a.At(0, 1) != c.At(0, 1)
            && SameCells(a, d) && !Close(a, d)
  {
    var a := Mat(2, 2, Row, [1.0, 2.0, 3.0, 4.0]);
    var d := Mat(2, 2, Column, [1.0, 3.0, 2.0, 4.0]);
    assert a.At(0, 0) == d.At(0, 0) && a.At(0, 1) == d.At(0, 1);
    assert a.At(1, 0) == d.At(1, 0) && a.At(1, 1) == d.At(1, 1);
    assert !Near(a.elements[1], d.elements[1]);
  }

  // Transposition as a view

  /** For a square matrix, flipping the rank reads cell (r, c) where cell (c, r) was. */
  lemma TransposeSquare(m: Mat, r: int, c: int)
    requires m.Valid() && m.rows == m.cols && 0 <= r < m.rows && 0 <= c < m.cols
    ensures m.(rank := Flip(m.rank)).At(r, c) == m.At(c, r)
  {
  }

  /**
   * For a non-square matrix the flip only reinterprets the buffer: the shape
   * stays 2 x 3 and cell (0, 1) is not the old cell (1, 0).
   */
  lemma TransposeNonSquare()
    ensures var m := Mat(2, 3, Row, [1.0, 2.0, 3.0, 4.0, 5.0, 6.0]);
            var t := m.(rank := Flip(m.rank));
            && t.Valid() && t.rows == 2 && t.cols == 3
            && t.At(0, 1) == 3.0 && m.At(1, 0) == 4.0
  {
  }

  // Concrete products

  /** The product of two 2 x 2 matrices, cell by cell. */
  lemma Product2x2(a: Mat, b: Mat)
    requires a.Valid() && b.Valid() && a.rows == a.cols == b.rows == b.cols == 2
    ensures forall i, j :: 0 <= i < 2 && 0 <= j < 2 ==>
      Product(a, b).At(i, j) == a.At(i, 0) * b.At(0, j) + a.At(i, 1) * b.At(1, j)
  {
    forall i, j | 0 <= i < 2 && 0 <= j < 2
      ensures Product(a, b).At(i, j) == a.At(i, 0) * b.At(0, j) + a.At(i, 1) * b.At(1, j)
    {
      ProductAt(a, b, i, j);
      InnerProduct2(a.RowOf(i), b.ColumnOf(j));
    }
  }

  /** A row-rank 2 x 2 buffer lists its cells row by row. */
  lemma RowCells2x2(p: Mat)
    requires p.Valid() && p.rows == p.cols == 2 && p.rank == Row
    ensures p.elements == [p.At(0, 0), p.At(0, 1), p.At(1, 0), p.At(1, 1)]
  {
    assert |p.elements| == 4;
  }

  lemma InnerProduct2(u: seq<real>, v: seq<real>)
    requires |u| == |v| == 2
    ensures InnerProduct(u, v) == u[0] * v[0] + u[1] * v[1]
  {
    assert u[..1][..0] == [];
    assert InnerProduct(u, v) == InnerProduct(u[..1], v) + u[1] * v[1];
  }

  /**
   * `[1,2,3,4] * [5,6,7,8]` is `[19,22,43,50]` and differs from the reverse
   * product `[23,34,31,46]`; the same buffer `[1,2,3,4]` read by columns
   * gives `[26,30,38,44]`.
   */
  lemma ProductExample()
    ensures var a := Mat(2, 2, Row, [1.0, 2.0, 3.0, 4.0]);
            var b := Mat(2, 2, Row, [5.0, 6.0, 7.0, 8.0]);
            var c := Mat(2, 2, Column, [1.0, 2.0, 3.0, 4.0]);
            && Product(a, b).elements == [19.0, 22.0, 43.0, 50.0]
            && Product(b, a).elements == [23.0, 34.0, 31.0, 46.0]
            && Product(c, b).elements == [26.0, 30.0, 38.0, 44.0]
            && !Close(Product(a, b), Product(b, a))
  {
    var a := Mat(2, 2, Row, [1.0, 2.0, 3.0, 4.0]);
    var b := Mat(2, 2, Row, [5.0, 6.0, 7.0, 8.0]);
    var c := Mat(2, 2, Column, [1.0, 2.0, 3.0, 4.0]);
    assert Product(a, b).elements == [19.0, 22.0, 43.0, 50.0] by {
      Product2x2(a, b);
      RowCells2x2(Product(a, b));
    }
    assert Product(b, a).elements == [23.0, 34.0, 31.0, 46.0] by {
      Product2x2(b, a);
      RowCells2x2(Product(b, a));
    }
    assert Product(c, b).elements == [26.0, 30.0, 38.0, 44.0] by {
      Product2x2(c, b);
      RowCells2x2(Product(c, b));
    }
    assert !Near(Product(a, b).elements[0], Product(b, a).elements[0]);
  }

  // The loops

  /** `dot`: the loop accumulates the inner product over the length of a. */
  method Dot(a: seq<real>, b: seq<real>) returns (sum: real)
    requires |a| <= |b|
    ensures sum == InnerProduct(a, b)
  {
    sum := 0.0;
    var i := 0;
    while i < |a|
      invariant 0 <= i <= |a|
      invariant sum == InnerProduct(a[..i], b)
    {
      assert a[..i + 1][..i] == a[..i];
      sum := sum + a[i] * b[i];
      i := i + 1;
    }
    assert a[..|a|] == a;
  }

  // The object

  /**
   * `Matrix`: the shape is fixed at construction; `transpose` updates the
   * rank tag and the mutable accessor updates the buffer in place.
   */
  class Matrix {
    const rows: nat
    const cols: nat
    var rank: Rank
    var elements: seq<real>

    /** The buffer holds one element per cell. */
    predicate Valid()
      reads this
    {
      |elements| == rows * cols
    }

    /** The value this object holds. */
    function Model(): (m: Mat)
      reads this
      ensures m.Valid() == Valid()
      ensures m.rows == rows && m.cols == cols && m.rank == rank && m.elements == elements
    {
      Mat(rows, cols, rank, elements)
    }

    /** The shape constructor: `m * n` zeros, row rank unless another rank is given. */
    constructor (m: nat, n: nat, rank: Rank := Row)
      ensures Valid() && Model() == Zero(m, n, rank)
    {
      rows, cols := m, n;
      this.rank := rank;
      elements := Zero(m, n, rank).elements;
    }

    /** The data constructor: stores x as the buffer, row rank unless another rank is given. */
    constructor FromData(m: nat, n: nat, x: seq<real>, rank: Rank := Row)
      requires |x| == m * n
      ensures Valid() && Model() == Mat(m, n, rank, x)
    {
      rows, cols := m, n;
      this.rank := rank;
      elements := x;
    }

    /** `get_rows`: the row count, which with the column count sizes the buffer. */
    function GetRows(): (r: nat)
      reads this
      ensures r == rows && (Valid() ==> |elements| == r * cols)
    {
      rows
    }

    /** `get_columns`: the column count, which with the row count sizes the buffer. */
    function GetColumns(): (c: nat)
      reads this
      ensures c == cols && (Valid() ==> |elements| == rows * c)
    {
      cols
    }

    /** `transpose`: flips the rank tag; the shape and the buffer stay. */
    method Transpose()
      modifies this
      ensures rank == Flip(old(rank)) && elements == old(elements)
      ensures Model() == old(Model()).(rank := Flip(old(rank)))
    {
      if rank == Row {
        rank := Column;
      } else {
        rank := Row;
      }
    }

    /** The const accessor: cell (r, c) read through the rank's layout. */
    function Get(r: int, c: int): (v: real)
      requires Valid() && 0 <= r < rows && 0 <= c < cols
      reads this
      ensures v == Model().At(r, c)
    {
      elements[Offset(rank, rows, cols, r, c)]
    }

    /**
     * The mutable accessor used for assignment: exactly one buffer slot
     * changes, cell (r, c) then reads v and every other cell reads as before.
     */
    method Set(r: int, c: int, v: real)
      requires Valid() && 0 <= r < rows && 0 <= c < cols
      modifies this
      ensures Valid() && rank == old(rank)
      ensures elements == old(elements)[Offset(rank, rows, cols, r, c) := v]
      ensures Get(r, c) == v
      ensures forall i, j :: 0 <= i < rows && 0 <= j < cols && (i, j) != (r, c) ==>
        Get(i, j) == old(Get(i, j))
    {
      var o := Offset(rank, rows, cols, r, c);
      elements := elements[o := v];
      forall i, j | 0 <= i < rows && 0 <= j < cols && (i, j) != (r, c)
        ensures Offset(rank, rows, cols, i, j) != o
      {
        if Offset(rank, rows, cols, i, j) == o {
          OffsetInjective(rank, rows, cols, i, j, r, c);
        }
      }
    }

    /**
     * `operator*`: a fresh row-rank `rows x a.cols` matrix whose cell (i, j)
     * is the sum over k < cols of this(i, k) * a(k, j), accumulated from
     * left to right; neither factor changes.
     */
    method Mul(a: Matrix) returns (output: Matrix)
      requires Valid() && a.Valid() && cols <= a.rows
      ensures fresh(output) && output.Valid()
      ensures output.Model() == Product(Model(), a.Model())
    {
      ghost var p := Product(Model(), a.Model());
      var n := a.cols;
      output := new Matrix(rows, n, Row);
      var i := 0;
      ghost var done := 0;
      while i < rows
        invariant 0 <= i <= rows && done == i * n
        invariant output.Valid() && output.rows == rows && output.cols == n && output.rank == Row
        invariant Agrees(output.elements, p.elements, done)
      {
        var j := 0;
        while j < n
          invariant 0 <= j <= n
          invariant output.Valid() && output.rows == rows && output.cols == n && output.rank == Row
          invariant Agrees(output.elements, p.elements, done + j)
        {
          CellBelow(i, j, rows, n);
          var sum := CellSum(a, i, j);
          ghost var before := output.elements;
          output.Set(i, j, sum);
          ProductStep(Model(), a.Model(), p, before, output.elements, i, j, sum);
          j := j + 1;
        }
        assert done + n == (i + 1) * n;
        done := done + n;
        i := i + 1;
      }
      assert output.elements == p.elements;
    }

    /** The innermost loop of `operator*`: the sum for cell (i, j) of the product. */
    method CellSum(a: Matrix, i: int, j: int) returns (sum: real)
      requires Valid() && a.Valid() && cols <= a.rows && 0 <= i < rows && 0 <= j < a.cols
      ensures sum == InnerProduct(Model().RowOf(i), a.Model().ColumnOf(j))
    {
      ghost var row, column := Model().RowOf(i), a.Model().ColumnOf(j);
      sum := 0.0;
      var k := 0;
      while k < cols
        invariant 0 <= k <= cols
        invariant sum == InnerProduct(row[..k], column)
      {
        var x, y := Get(i, k), a.Get(k, j);
        AccumulateStep(row, column, k, sum, x, y);
        sum := sum + x * y;
        k := k + 1;
      }
      assert row[..cols] == row;
    }

    /**
     * `operator==`: false on a shape mismatch, otherwise true exactly when
     * the buffers agree position by position within the tolerance.
     */
    method Equals(other: Matrix) returns (b: bool)
      requires Valid() && other.Valid()
      ensures b == Close(Model(), other.Model())
    {
      if rows != other.rows || cols != other.cols {
        return false;
      }
      var i := 0;
      while i < |elements|
        invariant 0 <= i <= |elements|
        invariant forall q :: 0 <= q < i ==> Near(elements[q], other.elements[q])
      {
        if !Near(elements[i], other.elements[i]) {
          return false;
        }
        i := i + 1;
      }
      return true;
    }
  }

  /** Transposing twice restores the original state. */
  method TransposeTwice(m: Matrix)
    modifies m
    ensures m.Model() == old(m.Model())
  {
    m.Transpose();
    m.Transpose();
  }
}
