/**
 * The two-layer network: two weight matrices fixed at construction and a
 * forward pass that multiplies the input by each of them in turn.
 */
module NeuralNets {
  import opened Matrices

  /** The value of a forward pass: `(x * w1) * w2`. */
  function ForwardValue(x: Mat, w1: Mat, w2: Mat): (y: Mat)
    requires x.Valid() && w1.Valid() && w2.Valid() && x.cols <= w1.rows && w1.cols <= w2.rows
    ensures y.Valid() && y.rows == x.rows && y.cols == w2.cols && y.rank == Row
  {
    Product(Product(x, w1), w2)
  }

  /** With all-zero second-layer weights every forward pass is all zeros, whatever the input. */
  lemma ForwardZero(x: Mat, w1: Mat, w2: Mat)
    requires x.Valid() && w1.Valid() && w2.Valid() && x.cols <= w1.rows && w1.cols <= w2.rows
    requires IsZero(w2.elements)
    ensures IsZero(ForwardValue(x, w1, w2).elements)
  {
    ProductZeroRight(Product(x, w1), w2);
  }

  /** With all-zero first-layer weights every forward pass is all zeros, whatever the input. */
  lemma ForwardZeroFirstLayer(x: Mat, w1: Mat, w2: Mat)
    requires x.Valid() && w1.Valid() && w2.Valid() && x.cols <= w1.rows && w1.cols <= w2.rows
    requires IsZero(w1.elements)
    ensures IsZero(ForwardValue(x, w1, w2).elements)
  {
    ProductZeroRight(x, w1);
    ProductZeroLeft(Product(x, w1), w2);
  }

  class NeuralNet {
    const weights1: Matrix
    const weights2: Matrix

    /**
     * The weights are `input x hidden` and `hidden x output`, row rank and
     * all zero: the constructor zero-fills them and nothing writes them later.
     */
    predicate Valid()
      reads this, weights1, weights2
    {
      && weights1.Valid() && weights2.Valid()
      && weights1.cols == weights2.rows
      && weights1.rank == Row && weights2.rank == Row
      && IsZero(weights1.elements) && IsZero(weights2.elements)
    }

    constructor (inputSize: nat, hiddenSize: nat, outputSize: nat)
      ensures Valid() && fresh(weights1) && fresh(weights2)
      ensures weights1.Model() == Zero(inputSize, hiddenSize, Row)
      ensures weights2.Model() == Zero(hiddenSize, outputSize, Row)
    {
      weights1 := new Matrix(inputSize, hiddenSize);
      weights2 := new Matrix(hiddenSize, outputSize);
    }

    /**
     * `forward`: `(input * weights1) * weights2`, a fresh row-rank matrix
     * with the input's rows and the output size's columns, all zeros; the
     * input and the weights are not written.
     */
    method Forward(input: Matrix) returns (output: Matrix)
      requires Valid() && input.Valid() && input.cols <= weights1.rows
      ensures fresh(output) && output.Valid()
      ensures output.Model() == ForwardValue(input.Model(), weights1.Model(), weights2.Model())
      ensures output.rows == input.rows && output.cols == weights2.cols && output.rank == Row
      ensures IsZero(output.elements)
    {
      output := input.Mul(weights1);
      output := output.Mul(weights2);
      ForwardZero(input.Model(), weights1.Model(), weights2.Model());
    }
  }
}
