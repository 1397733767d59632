/**
 * The associativity check of the matrix test program. As written it aborts
 * when `(A * B) * C` and `A * (B * C)` compare equal, which the product's
 * associativity makes happen on every input; the intended check aborts when
 * they differ, which never happens.
 */
module MatrixTests {
  import opened Matrices

  /** Three matrices the two groupings of whose product are defined. */
  predicate Chain(a: Mat, b: Mat, c: Mat) {
    a.Valid() && b.Valid() && c.Valid() && a.cols == b.rows && b.cols == c.rows
  }

  /** The test as written: it reaches `assert(false)` when the two groupings compare equal. */
  predicate AssociativityTestAborts(a: Mat, b: Mat, c: Mat)
    requires Chain(a, b, c)
  {
    Close(Product(Product(a, b), c), Product(a, Product(b, c)))
  }

  /** As written, the test aborts on every input. */
  lemma AssociativityTestAlwaysAborts(a: Mat, b: Mat, c: Mat)
    requires Chain(a, b, c)
    ensures AssociativityTestAborts(a, b, c)
  {
    ProductAssociative(a, b, c);
    CloseReflexive(Product(a, Product(b, c)));
  }

  /** In particular on the test's own three matrices. */
  lemma AssociativityTestDataAborts()
    ensures var a := Mat(2, 2, Row, [1.0, 2.0, 3.0, 4.0]);
            var b := Mat(2, 2, Row, [5.0, 6.0, 7.0, 8.0]);
            var c := Mat(2, 2, Row, [9.0, 1.0, 2.0, 3.0]);
            Chain(a, b, c) && AssociativityTestAborts(a, b, c)
  {
    var a := Mat(2, 2, Row, [1.0, 2.0, 3.0, 4.0]);
    var b := Mat(2, 2, Row, [5.0, 6.0, 7.0, 8.0]);
    var c := Mat(2, 2, Row, [9.0, 1.0, 2.0, 3.0]);
    AssociativityTestAlwaysAborts(a, b, c);
  }

  /** The intended test: abort when the two groupings do not compare equal. */
  predicate AssociativityTestAbortsIntended(a: Mat, b: Mat, c: Mat)
    requires Chain(a, b, c)
  {
    !Close(Product(Product(a, b), c), Product(a, Product(b, c)))
  }

  /** The intended test never aborts. */
  lemma AssociativityTestIntendedPasses(a: Mat, b: Mat, c: Mat)
    requires Chain(a, b, c)
    ensures !AssociativityTestAbortsIntended(a, b, c)
  {
    AssociativityTestAlwaysAborts(a, b, c);
  }
}
