/**
 * The shape discipline of a fully connected sigmoid network trained by
 * backpropagation. The logistic function is a parameter `sigma`; nothing is
 * assumed about its values, so every statement here is about structure: which
 * matrices are combined, in which order, and with which shapes.
 */
module NeuralNetwork {
  import opened Collections
  import opened Matrices

  /** Half-width of the interval initial weights are drawn from. */
  const Epsilon: real := 1.2

  /** Layer widths: input, then each hidden layer, then output. */
  function Sizes(inputSize: nat, hiddenSizes: seq<nat>, outputSize: nat): (s: seq<nat>)
    ensures |s| == |hiddenSizes| + 2 && s[0] == inputSize && s[|s| - 1] == outputSize
    ensures forall i :: 0 <= i < |hiddenSizes| ==> s[i + 1] == hiddenSizes[i]
  {
    [inputSize] + hiddenSizes + [outputSize]
  }

  /** One matrix per layer transition; matrix `l` maps `sizes[l]` inputs plus a bias to `sizes[l + 1]` outputs. */
  predicate WellShaped(ws: seq<Matrix>, sizes: seq<nat>)
  {
    |sizes| == |ws| + 1 &&
    forall l :: 0 <= l < |ws| ==> IsShape(ws[l], sizes[l] + 1, sizes[l + 1])
  }

  // ---------------------------------------------------------------------------
  // Initialisation
  // ---------------------------------------------------------------------------

  /**
   * `random(rows, columns)` for the `layer`-th matrix: a (rows+1) x columns matrix
   * of the draws `rnd(layer, i, j)`, each rescaled by r * 2 * Epsilon - Epsilon.
   */
  function Random(rows: nat, columns: nat, layer: nat, rnd: (nat, nat, nat) -> real): (m: Matrix)
    ensures IsShape(m, rows + 1, columns)
  {
    seq(rows + 1, (i: nat) requires i <= rows =>
      seq(columns, (j: nat) requires j < columns => rnd(layer, i, j) * 2.0 * Epsilon - Epsilon))
  }

  /** The zipped pairs are the consecutive widths of `Sizes`. */
  lemma TransitionPairs(inputSize: nat, outputSize: nat, hiddenSizes: seq<nat>)
    ensures var pairs := Zip([inputSize] + hiddenSizes, hiddenSizes + [outputSize]);
      var sizes := Sizes(inputSize, hiddenSizes, outputSize);
      |pairs| == |sizes| - 1 &&
      forall l :: 0 <= l < |pairs| ==> pairs[l] == (sizes[l], sizes[l + 1])
  {
    var pairs := Zip([inputSize] + hiddenSizes, hiddenSizes + [outputSize]);
    var sizes := Sizes(inputSize, hiddenSizes, outputSize);
    forall l | 0 <= l < |pairs|
      ensures pairs[l] == (sizes[l], sizes[l + 1])
    {
      assert pairs[l] == (([inputSize] + hiddenSizes)[l], (hiddenSizes + [outputSize])[l]);
    }
  }

  /** A draw in [0, 1) becomes a weight in [-Epsilon, Epsilon). */
  lemma RandomInRange(rows: nat, columns: nat, layer: nat, rnd: (nat, nat, nat) -> real)
    requires forall i, j :: 0.0 <= rnd(layer, i, j) < 1.0
    ensures var m := Random(rows, columns, layer, rnd);
      forall i, j :: 0 <= i <= rows && 0 <= j < columns ==> -Epsilon <= m[i][j] < Epsilon
  {
    var m := Random(rows, columns, layer, rnd);
    forall i, j | 0 <= i <= rows && 0 <= j < columns
      ensures -Epsilon <= m[i][j] < Epsilon
    {
      var r := rnd(layer, i, j);
      assert m[i][j] == r * 2.0 * Epsilon - Epsilon;
    }
  }

  /**
   * `initializeWeights`: zips the widths `[inputSize] + hiddenSizes` with
   * `hiddenSizes + [outputSize]` and draws one matrix per pair. The random
   * source is `rnd(l, i, j)`, the draw for entry (i, j) of the l-th matrix.
   */
  function InitializeWeights(inputSize: nat, outputSize: nat, hiddenSizes: seq<nat>,
                             rnd: (nat, nat, nat) -> real): (ws: seq<Matrix>)
    ensures WellShaped(ws, Sizes(inputSize, hiddenSizes, outputSize))
    ensures |ws| == |hiddenSizes| + 1
  {
    var pairs := Zip([inputSize] + hiddenSizes, hiddenSizes + [outputSize]);
    TransitionPairs(inputSize, outputSize, hiddenSizes);
    seq(|pairs|, (l: nat) requires l < |pairs| => Random(pairs[l].0, pairs[l].1, l, rnd))
  }

  /** Every initial weight lies in [-Epsilon, Epsilon) when the draws lie in [0, 1). */
  lemma InitialWeightsInRange(inputSize: nat, outputSize: nat, hiddenSizes: seq<nat>,
                              rnd: (nat, nat, nat) -> real)
    requires forall l, i, j :: 0.0 <= rnd(l, i, j) < 1.0
    ensures var ws := InitializeWeights(inputSize, outputSize, hiddenSizes, rnd);
      forall l, i, j :: 0 <= l < |ws| && 0 <= i < |ws[l]| && 0 <= j < |ws[l][i]| ==>
        -Epsilon <= ws[l][i][j] < Epsilon
  {
    var ws := InitializeWeights(inputSize, outputSize, hiddenSizes, rnd);
    forall l | 0 <= l < |ws|
      ensures forall i, j :: 0 <= i < |ws[l]| && 0 <= j < |ws[l][i]| ==> -Epsilon <= ws[l][i][j] < Epsilon
    {
      InitialLayerInRange(inputSize, outputSize, hiddenSizes, rnd, l);
    }
  }

  lemma InitialLayerInRange(inputSize: nat, outputSize: nat, hiddenSizes: seq<nat>,
                            rnd: (nat, nat, nat) -> real, l: nat)
    requires forall l, i, j :: 0.0 <= rnd(l, i, j) < 1.0
    requires l <= |hiddenSizes|
    ensures var w := InitializeWeights(inputSize, outputSize, hiddenSizes, rnd)[l];
      forall i, j :: 0 <= i < |w| && 0 <= j < |w[i]| ==> -Epsilon <= w[i][j] < Epsilon
  {
    var pairs := Zip([inputSize] + hiddenSizes, hiddenSizes + [outputSize]);
    var w := InitializeWeights(inputSize, outputSize, hiddenSizes, rnd)[l];
    assert w == Random(pairs[l].0, pairs[l].1, l, rnd);
    RandomInRange(pairs[l].0, pairs[l].1, l, rnd);
  }

  // ---------------------------------------------------------------------------
  // Forward pass
  // ---------------------------------------------------------------------------

  /** Pre-activation of one transition: the bias-augmented activation times the weights. */
  function PreActivation(x: Matrix, w: Matrix, inSize: nat, outSize: nat): (z: Matrix)
    requires IsShape(x, |x|, inSize) && IsShape(w, inSize + 1, outSize)
    ensures IsShape(z, |x|, outSize)
  {
    Multiply(Biased(x), w, inSize + 1, outSize)
  }

  /** One transition of the forward pass: sigmoid of the pre-activation. */
  function Step(sigma: real -> real, x: Matrix, w: Matrix, inSize: nat, outSize: nat): (a: Matrix)
    requires IsShape(x, |x|, inSize) && IsShape(w, inSize + 1, outSize)
    ensures IsShape(a, |x|, outSize)
  {
    Map(PreActivation(x, w, inSize, outSize), sigma)
  }

  /** `layers[k]` of the forward loop in `train`: the input for k = 0, then one `Step` per transition. */
  function Layer(sigma: real -> real, ws: seq<Matrix>, sizes: seq<nat>, x: Matrix, k: nat): (a: Matrix)
    requires WellShaped(ws, sizes) && IsShape(x, |x|, sizes[0]) && k <= |ws|
    ensures IsShape(a, |x|, sizes[k])
    ensures k == 0 ==> a == x
  {
    if k == 0 then x
    else Step(sigma, Layer(sigma, ws, sizes, x, k - 1), ws[k - 1], sizes[k - 1], sizes[k])
  }

  /** `accumulated[k]` of the forward loop in `train`. */
  function Accumulated(sigma: real -> real, ws: seq<Matrix>, sizes: seq<nat>, x: Matrix, k: nat): (z: Matrix)
    requires WellShaped(ws, sizes) && IsShape(x, |x|, sizes[0]) && k < |ws|
    ensures IsShape(z, |x|, sizes[k + 1])
  {
    PreActivation(Layer(sigma, ws, sizes, x, k), ws[k], sizes[k], sizes[k + 1])
  }

  /** `calculate`: the forward pass written as a left fold over the weight list. */
  function Fold(sigma: real -> real, ws: seq<Matrix>, sizes: seq<nat>, x: Matrix): (out: Matrix)
    requires WellShaped(ws, sizes) && IsShape(x, |x|, sizes[0])
    ensures IsShape(out, |x|, sizes[|ws|])
    decreases |ws|
  {
    if ws == [] then x
    else Fold(sigma, ws[1..], sizes[1..], Step(sigma, x, ws[0], sizes[0], sizes[1]))
  }

  /** Dropping the first transition turns layer k+1 into layer k of the rest of the network. */
  lemma {:induction false} LayerShift(sigma: real -> real, ws: seq<Matrix>, sizes: seq<nat>, x: Matrix, k: nat)
    requires WellShaped(ws, sizes) && IsShape(x, |x|, sizes[0]) && k < |ws|
    ensures WellShaped(ws[1..], sizes[1..])
    ensures Layer(sigma, ws, sizes, x, k + 1)
         == Layer(sigma, ws[1..], sizes[1..], Step(sigma, x, ws[0], sizes[0], sizes[1]), k)
  {
    assert WellShaped(ws[1..], sizes[1..]) by {
      forall l | 0 <= l < |ws| - 1
        ensures IsShape(ws[1..][l], sizes[1..][l] + 1, sizes[1..][l + 1])
      {
        assert ws[1..][l] == ws[l + 1];
      }
    }
    if k > 0 {
      LayerShift(sigma, ws, sizes, x, k - 1);
    }
  }

  /** The fold in `calculate` yields the last layer of `train`'s forward loop. */
  lemma {:induction false} FoldIsLastLayer(sigma: real -> real, ws: seq<Matrix>, sizes: seq<nat>, x: Matrix)
    requires WellShaped(ws, sizes) && IsShape(x, |x|, sizes[0])
    ensures Fold(sigma, ws, sizes, x) == Layer(sigma, ws, sizes, x, |ws|)
    decreases |ws|
  {
    if ws != [] {
      LayerShift(sigma, ws, sizes, x, |ws| - 1);
      FoldIsLastLayer(sigma, ws[1..], sizes[1..], Step(sigma, x, ws[0], sizes[0], sizes[1]));
    }
  }

  // ---------------------------------------------------------------------------
  // Backward pass and weight update
  // ---------------------------------------------------------------------------

  /** `sigmoidGradient`: sigma(z) * (1 - sigma(z)), taken of the pre-activation. */
  function SigmoidGradient(sigma: real -> real, z: real): (g: real)
    ensures 0.0 <= sigma(z) <= 1.0 ==> 0.0 <= g <= 0.25
  {
    var s := sigma(z);
    if 0.0 <= s <= 1.0 then ProductBounds(s); s * (1.0 - s) else s * (1.0 - s)
  }

  /** `s * (1 - s)` is at most 1/4, the square `(s - 1/2)^2` being non-negative, and not negative on [0, 1]. */
  lemma ProductBounds(s: real)
    requires 0.0 <= s <= 1.0
    ensures 0.0 <= s * (1.0 - s) <= 0.25
  {
    var d := s - 0.5;
    assert s * (1.0 - s) == 0.25 - d * d;
    if d < 0.0 {
      assert d * d == (-d) * (-d);
      MulNonNegative(-d, -d);
    } else {
      MulNonNegative(d, d);
    }
    MulNonNegative(s, 1.0 - s);
  }

  lemma MulNonNegative(x: real, y: real)
    requires x >= 0.0 && y >= 0.0
    ensures x * y >= 0.0
  {
  }

  function GradientOf(sigma: real -> real, z: Matrix): (g: Matrix)
    ensures SameShape(g, z)
  {
    Map(z, t => SigmoidGradient(sigma, t))
  }

  /** The error of the output transition: (output - targets) emul the sigmoid gradient of its pre-activation. */
  function OutputError(sigma: real -> real, a: Matrix, y: Matrix, z: Matrix): (e: Matrix)
    requires SameShape(a, y) && SameShape(a, z)
    ensures SameShape(e, a)
  {
    EMul(Sub(a, y), GradientOf(sigma, z))
  }

  /**
   * One step of the backward loop: the next error `e` (rows x outSize) times the
   * transposed weights `w` without their bias row, emul the sigmoid gradient of
   * the pre-activation `z` (rows x inSize).
   */
  function BackStep(sigma: real -> real, e: Matrix, w: Matrix, z: Matrix, inSize: nat, outSize: nat): (d: Matrix)
    requires IsShape(w, inSize + 1, outSize) && IsShape(e, |e|, outSize) && IsShape(z, |e|, inSize)
    ensures IsShape(d, |e|, inSize)
  {
    EMul(Multiply(e, Transpose(Unbiased(w), outSize), outSize, inSize), GradientOf(sigma, z))
  }

  /**
   * `errors[k]` of the backward loop in `train`: the output error for the last
   * transition, otherwise one `BackStep` from `errors[k + 1]`.
   */
  function ErrorTerm(sigma: real -> real, ws: seq<Matrix>, sizes: seq<nat>, x: Matrix, y: Matrix, k: nat): (e: Matrix)
    requires WellShaped(ws, sizes) && IsShape(x, |x|, sizes[0]) && IsShape(y, |x|, sizes[|ws|])
    requires k < |ws|
    ensures IsShape(e, |x|, sizes[k + 1])
    decreases |ws| - k
  {
    var z := Accumulated(sigma, ws, sizes, x, k);
    if k == |ws| - 1 then
      OutputError(sigma, Layer(sigma, ws, sizes, x, |ws|), y, z)
    else
      assert IsShape(ws[k + 1], sizes[k + 1] + 1, sizes[k + 2]);
      BackStep(sigma, ErrorTerm(sigma, ws, sizes, x, y, k + 1), ws[k + 1], z, sizes[k + 1], sizes[k + 2])
  }

  /** The descent step for one weight matrix: W - learningRate * biased(a)^T * e / rows. */
  function Descend(w: Matrix, a: Matrix, e: Matrix, learningRate: real, inSize: nat, outSize: nat): (w': Matrix)
    requires |a| > 0 && IsShape(w, inSize + 1, outSize) && IsShape(a, |a|, inSize) && IsShape(e, |a|, outSize)
    ensures IsShape(w', inSize + 1, outSize)
  {
    var gradient := Multiply(Scale(learningRate, Transpose(Biased(a), inSize + 1)), e, |a|, outSize);
    Sub(w, Divide(gradient, |a| as real))
  }

  /** The new matrix of transition k after one call of `train`. */
  function Updated(sigma: real -> real, ws: seq<Matrix>, sizes: seq<nat>, learningRate: real,
                   x: Matrix, y: Matrix, k: nat): (w: Matrix)
    requires WellShaped(ws, sizes) && IsShape(x, |x|, sizes[0]) && IsShape(y, |x|, sizes[|ws|])
    requires |x| > 0 && k < |ws|
    ensures IsShape(w, sizes[k] + 1, sizes[k + 1])
  {
    Descend(ws[k], Layer(sigma, ws, sizes, x, k), ErrorTerm(sigma, ws, sizes, x, y, k), learningRate, sizes[k], sizes[k + 1])
  }

  /** The weight list after one call of `train` on batch `x` with targets `y`. */
  function TrainedWeights(sigma: real -> real, ws: seq<Matrix>, sizes: seq<nat>, learningRate: real,
                          x: Matrix, y: Matrix): (ws': seq<Matrix>)
    requires WellShaped(ws, sizes) && IsShape(x, |x|, sizes[0]) && IsShape(y, |x|, sizes[|ws|])
    requires |x| > 0
    ensures |ws'| == |ws|
    ensures forall l :: 0 <= l < |ws| ==> |ws'[l]| == |ws[l]| && SameShape(ws'[l], ws[l])
    ensures WellShaped(ws', sizes)
  {
    seq(|ws|, k requires 0 <= k < |ws| => Updated(sigma, ws, sizes, learningRate, x, y, k))
  }

  // ---------------------------------------------------------------------------
  // Evaluation
  // ---------------------------------------------------------------------------

  /** `best`: the index of the first maximum (Kotlin's `maxBy` keeps the earliest of equal values). */
  function Best(row: seq<real>): (k: nat)
    requires |row| > 0
    ensures k < |row|
    ensures forall j :: 0 <= j < |row| ==> row[j] <= row[k]
    ensures forall j :: 0 <= j < k ==> row[j] < row[k]
  {
    if |row| == 1 then 0
    else
      var b := Best(row[..|row| - 1]);
      if row[b] < row[|row| - 1] then |row| - 1 else b
  }

  /** Rows whose predicted and expected first maxima coincide, among the rows `zip` pairs up. */
  ghost function Agreeing(calculated: Matrix, expected: Matrix): set<nat>
    requires forall i :: 0 <= i < Min(|calculated|, |expected|) ==> |calculated[i]| > 0 && |expected[i]| > 0
  {
    set i: nat | i < Min(|calculated|, |expected|) && Best(calculated[i]) == Best(expected[i])
  }

  /** The agreeing rows of the first m pairs are those of the first m - 1 pairs, plus row m - 1 if it agrees. */
  lemma AgreeingSnoc(calculated: Matrix, expected: Matrix)
    requires forall i :: 0 <= i < Min(|calculated|, |expected|) ==> |calculated[i]| > 0 && |expected[i]| > 0
    requires Min(|calculated|, |expected|) > 0
    ensures var m := Min(|calculated|, |expected|);
      var prior := Agreeing(calculated[..m - 1], expected[..m - 1]);
      m - 1 !in prior &&
      Agreeing(calculated, expected)
        == prior + (if Best(calculated[m - 1]) == Best(expected[m - 1]) then {m - 1} else {})
  {
    var m := Min(|calculated|, |expected|);
    var a, e := calculated[..m - 1], expected[..m - 1];
    var last: set<nat> := if Best(calculated[m - 1]) == Best(expected[m - 1]) then {m - 1} else {};
    forall i: nat | i < m - 1
      ensures a[i] == calculated[i] && e[i] == expected[i]
    {
    }
    assert Agreeing(calculated, expected) == Agreeing(a, e) + last;
  }

  /** `correct`: sums 1 over the zipped rows whose `best` indices agree. */
  function Correct(calculated: Matrix, expected: Matrix): (c: nat)
    requires forall i :: 0 <= i < Min(|calculated|, |expected|) ==> |calculated[i]| > 0 && |expected[i]| > 0
    ensures c <= Min(|calculated|, |expected|)
    ensures c == |Agreeing(calculated, expected)|
    decreases |calculated|
  {
    var m := Min(|calculated|, |expected|);
    if m == 0 then 0
    else
      var prior := Correct(calculated[..m - 1], expected[..m - 1]);
      AgreeingSnoc(calculated, expected);
      prior + if Best(calculated[m - 1]) == Best(expected[m - 1]) then 1 else 0
  }

  // ---------------------------------------------------------------------------
  // The network object
  // ---------------------------------------------------------------------------

  class Network {
    const inputSize: nat
    const outputSize: nat
    const hiddenSizes: seq<nat>
    const sigma: real -> real
    var weights: seq<Matrix>
    var learningRate: real

    function Shape(): (s: seq<nat>)
      ensures s == Sizes(inputSize, hiddenSizes, outputSize)
    {
      Sizes(inputSize, hiddenSizes, outputSize)
    }

    ghost predicate Valid()
      reads this
    {
      WellShaped(weights, Shape())
    }

    /** The primary constructor: fresh random weights and learning rate 1.0. */
    constructor (inputSize: nat, outputSize: nat, hiddenSizes: seq<nat>, sigma: real -> real,
                 rnd: (nat, nat, nat) -> real)
      ensures Valid()
      ensures this.inputSize == inputSize && this.outputSize == outputSize && this.hiddenSizes == hiddenSizes
      ensures this.sigma == sigma
      ensures weights == InitializeWeights(inputSize, outputSize, hiddenSizes, rnd)
      ensures learningRate == 1.0
    {
      this.inputSize := inputSize;
      this.outputSize := outputSize;
      this.hiddenSizes := hiddenSizes;
      this.sigma := sigma;
      weights := InitializeWeights(inputSize, outputSize, hiddenSizes, rnd);
      learningRate := 1.0;
    }

    /**
     * `train`: a forward loop filling `layers` and `accumulated`, a backward loop
     * filling `errors` from the last transition down, then one descent step per
     * weight matrix.
     */
    method Train(input: Matrix, results: Matrix)
      requires Valid()
      requires |input| > 0 && IsShape(input, |input|, inputSize) && IsShape(results, |input|, outputSize)
      modifies this`weights
      ensures Valid()
      ensures weights == TrainedWeights(sigma, old(weights), Shape(), learningRate, input, results)
    {
      var sizes := Shape();
      var layers, accumulated := ForwardPass(sigma, weights, sizes, input);
      var errors := BackwardPass(sigma, weights, sizes, input, results, layers, accumulated);

      weights := UpdatePass(sigma, weights, sizes, learningRate, input, results, layers, accumulated, errors);
    }

    /** `calculate`: the fold over the current weights. */
    function Calculate(input: Matrix): (out: Matrix)
      reads this
      requires Valid() && IsShape(input, |input|, inputSize)
      ensures IsShape(out, |input|, outputSize)
      ensures out == Layer(sigma, weights, Shape(), input, |weights|)
    {
      FoldIsLastLayer(sigma, weights, Shape(), input);
      Fold(sigma, weights, Shape(), input)
    }

    /** The correct-count half of `error` (the cost half is floating point and not modelled). */
    function Error(input: Matrix, expectedResults: Matrix): (correct: nat)
      reads this
      requires Valid() && IsShape(input, |input|, inputSize) && outputSize > 0
      requires forall i :: 0 <= i < Min(|input|, |expectedResults|) ==> |expectedResults[i]| > 0
      ensures correct <= |input| && correct <= |expectedResults|
      ensures correct == |Agreeing(Calculate(input), expectedResults)|
    {
      Correct(Calculate(input), expectedResults)
    }

    /** `copy`: same topology and weights, but the default learning rate of a new network. */
    method Copy(rnd: (nat, nat, nat) -> real) returns (c: Network)
      requires Valid()
      ensures fresh(c) && c.Valid()
      ensures c.inputSize == inputSize && c.outputSize == outputSize && c.hiddenSizes == hiddenSizes
      ensures c.sigma == sigma
      ensures c.weights == weights
      ensures c.learningRate == 1.0
    {
      c := new Network(inputSize, outputSize, hiddenSizes, sigma, rnd);
      c.weights := weights;
    }

    /** `with`: sets the learning rate and returns the same network. */
    method With(learningRate: real) returns (self: Network)
      modifies this`learningRate
      ensures self == this && this.learningRate == learningRate
    {
      this.learningRate := learningRate;
      self := this;
    }
  }

  /** The forward loop has run `n` transitions: `layers[0..n]` and `accumulated[0..n)` hold their specified values. */
  ghost predicate ForwardDone(sigma: real -> real, ws: seq<Matrix>, sizes: seq<nat>, x: Matrix,
                              layers: seq<Matrix>, accumulated: seq<Matrix>, n: nat)
    requires WellShaped(ws, sizes) && IsShape(x, |x|, sizes[0]) && n <= |ws|
  {
    n < |layers| && n <= |accumulated| &&
    (forall k {:trigger layers[k]} :: 0 <= k <= n ==> layers[k] == Layer(sigma, ws, sizes, x, k)) &&
    (forall k {:trigger accumulated[k]} :: 0 <= k < n ==> accumulated[k] == Accumulated(sigma, ws, sizes, x, k))
  }

  /** One iteration of the forward loop extends what has been run by one transition. */
  lemma ForwardStep(sigma: real -> real, ws: seq<Matrix>, sizes: seq<nat>, x: Matrix,
                    layers: seq<Matrix>, accumulated: seq<Matrix>, n: nat)
    requires WellShaped(ws, sizes) && IsShape(x, |x|, sizes[0]) && n < |ws|
    requires ForwardDone(sigma, ws, sizes, x, layers, accumulated, n) && n + 1 < |layers| && n < |accumulated|
    ensures IsShape(layers[n], |layers[n]|, sizes[n]) && IsShape(ws[n], sizes[n] + 1, sizes[n + 1])
    ensures var z := PreActivation(layers[n], ws[n], sizes[n], sizes[n + 1]);
      ForwardDone(sigma, ws, sizes, x, layers[n + 1 := Map(z, sigma)], accumulated[n := z], n + 1)
  {
  }

  /** The forward loop of `train`: `layers[0]` is the input, then `accumulated[k]` and `layers[k + 1]` in turn. */
  method ForwardPass(sigma: real -> real, ws: seq<Matrix>, sizes: seq<nat>, input: Matrix)
    returns (layers: array<Matrix>, accumulated: array<Matrix>)
    requires WellShaped(ws, sizes) && IsShape(input, |input|, sizes[0])
    ensures fresh(layers) && fresh(accumulated)
    ensures layers.Length == |ws| + 1 && accumulated.Length == |ws|
    ensures ForwardDone(sigma, ws, sizes, input, layers[..], accumulated[..], |ws|)
  {
    var length := |ws|;
    layers := new Matrix[length + 1];
    accumulated := new Matrix[length];
    layers[0] := input;
    var i := 0;
    while i < length
      invariant 0 <= i <= length
      invariant ForwardDone(sigma, ws, sizes, input, layers[..], accumulated[..], i)
      modifies layers, accumulated
    {
      ForwardStep(sigma, ws, sizes, input, layers[..], accumulated[..], i);
      accumulated[i] := PreActivation(layers[i], ws[i], sizes[i], sizes[i + 1]);
      layers[i + 1] := Map(accumulated[i], sigma);
      i := i + 1;
    }
  }

  /** The backward loop has filled `errors[from..]` with their specified values. */
  ghost predicate BackwardDone(sigma: real -> real, ws: seq<Matrix>, sizes: seq<nat>, x: Matrix, y: Matrix,
                               errors: seq<Matrix>, from: nat)
    requires WellShaped(ws, sizes) && IsShape(x, |x|, sizes[0]) && IsShape(y, |x|, sizes[|ws|])
  {
    |errors| == |ws| &&
    forall k {:trigger errors[k]} :: from <= k < |ws| ==> errors[k] == ErrorTerm(sigma, ws, sizes, x, y, k)
  }

  /** The statement before the backward loop fills in the output error. */
  lemma BackwardStart(sigma: real -> real, ws: seq<Matrix>, sizes: seq<nat>, x: Matrix, y: Matrix,
                      layers: seq<Matrix>, accumulated: seq<Matrix>, errors: seq<Matrix>)
    requires WellShaped(ws, sizes) && IsShape(x, |x|, sizes[0]) && IsShape(y, |x|, sizes[|ws|]) && |ws| > 0
    requires ForwardDone(sigma, ws, sizes, x, layers, accumulated, |ws|) && |errors| == |ws|
    ensures SameShape(layers[|ws|], y) && SameShape(layers[|ws|], accumulated[|ws| - 1])
    ensures BackwardDone(sigma, ws, sizes, x, y,
      errors[|ws| - 1 := OutputError(sigma, layers[|ws|], y, accumulated[|ws| - 1])], |ws| - 1)
  {
  }

  /** One iteration of the backward loop fills in `errors[n]` from `errors[n + 1]`. */
  lemma BackwardStep(sigma: real -> real, ws: seq<Matrix>, sizes: seq<nat>, x: Matrix, y: Matrix,
                     layers: seq<Matrix>, accumulated: seq<Matrix>, errors: seq<Matrix>, n: nat)
    requires WellShaped(ws, sizes) && IsShape(x, |x|, sizes[0]) && IsShape(y, |x|, sizes[|ws|]) && n + 1 < |ws|
    requires ForwardDone(sigma, ws, sizes, x, layers, accumulated, |ws|)
    requires BackwardDone(sigma, ws, sizes, x, y, errors, n + 1)
    ensures IsShape(ws[n + 1], sizes[n + 1] + 1, sizes[n + 2])
    ensures IsShape(errors[n + 1], |errors[n + 1]|, sizes[n + 2])
    ensures IsShape(accumulated[n], |errors[n + 1]|, sizes[n + 1])
    ensures BackwardDone(sigma, ws, sizes, x, y,
      errors[n := BackStep(sigma, errors[n + 1], ws[n + 1], accumulated[n], sizes[n + 1], sizes[n + 2])], n)
  {
    assert IsShape(ws[n + 1], sizes[n + 1] + 1, sizes[n + 2]);
  }

  /** The backward loop of `train`: `errors[length - 1]` first, then down to `errors[0]`. */
  method BackwardPass(sigma: real -> real, ws: seq<Matrix>, sizes: seq<nat>, input: Matrix, results: Matrix,
                      layers: array<Matrix>, accumulated: array<Matrix>)
    returns (errors: array<Matrix>)
    requires WellShaped(ws, sizes) && IsShape(input, |input|, sizes[0]) && IsShape(results, |input|, sizes[|ws|])
    requires |ws| > 0 && ForwardDone(sigma, ws, sizes, input, layers[..], accumulated[..], |ws|)
    ensures fresh(errors)
    ensures BackwardDone(sigma, ws, sizes, input, results, errors[..], 0)
  {
    var length := |ws|;
    errors := new Matrix[length];
    BackwardStart(sigma, ws, sizes, input, results, layers[..], accumulated[..], errors[..]);
    errors[length - 1] := OutputError(sigma, layers[length], results, accumulated[length - 1]);
    var j := length - 2;
    while j >= 0
      invariant -1 <= j <= length - 2
      invariant BackwardDone(sigma, ws, sizes, input, results, errors[..], j + 1)
      modifies errors
    {
      BackwardStep(sigma, ws, sizes, input, results, layers[..], accumulated[..], errors[..], j);
      errors[j] := BackStep(sigma, errors[j + 1], ws[j + 1], accumulated[j], sizes[j + 1], sizes[j + 2]);
      j := j - 1;
    }
  }

  /** The weight update of `train`: `mapIndexed` over the weights, one `Descend` per matrix. */
  method UpdatePass(sigma: real -> real, ws: seq<Matrix>, sizes: seq<nat>, learningRate: real,
                    input: Matrix, results: Matrix, layers: array<Matrix>, accumulated: array<Matrix>,
                    errors: array<Matrix>)
    returns (updated: seq<Matrix>)
    requires WellShaped(ws, sizes) && IsShape(input, |input|, sizes[0]) && IsShape(results, |input|, sizes[|ws|])
    requires |input| > 0 && ForwardDone(sigma, ws, sizes, input, layers[..], accumulated[..], |ws|)
    requires BackwardDone(sigma, ws, sizes, input, results, errors[..], 0)
    ensures updated == TrainedWeights(sigma, ws, sizes, learningRate, input, results)
  {
    updated := [];
    while |updated| < |ws|
      invariant |updated| <= |ws|
      invariant forall k {:trigger updated[k]} :: 0 <= k < |updated| ==>
        updated[k] == Updated(sigma, ws, sizes, learningRate, input, results, k)
    {
      var k := |updated|;
      updated := updated + [Descend(ws[k], layers[k], errors[k], learningRate, sizes[k], sizes[k + 1])];
    }
  }

  /** A copy taken before a training step keeps the weights it was taken with. */
  method CopyIsolatedFromTraining(network: Network, rnd: (nat, nat, nat) -> real, input: Matrix, results: Matrix)
    returns (snapshot: Network)
    requires network.Valid()
    requires |input| > 0 && IsShape(input, |input|, network.inputSize)
    requires IsShape(results, |input|, network.outputSize)
    modifies network
    ensures fresh(snapshot) && snapshot != network && snapshot.weights == old(network.weights)
    ensures network.weights ==
      TrainedWeights(network.sigma, snapshot.weights, network.Shape(), network.learningRate, input, results)
  {
    snapshot := network.Copy(rnd);
    network.Train(input, results);
  }
}
