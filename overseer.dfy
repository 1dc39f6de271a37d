/**
 * The overseer: turns the IDX files into training matrices, and runs a training
 * session over them, recording its progress in the shared data holder.
 */
module Overseer {
  import opened Wrappers
  import opened Collections
  import opened Matrices
  import opened Batching
  import opened IdxFormat
  import opened NeuralNetwork
  import opened Training

  // ---------------------------------------------------------------------------
  // The shared progress record
  // ---------------------------------------------------------------------------

  /** Progress of data preparation and training, read by the user interface. */
  class DataHolder {
    /** Records read so far, per kind of data ("training", "test"). */
    var iterations: map<string, int>
    var epoch: int
    var iteration: int
    var trainScore: Score
    var trainRecog: real
    var testScore: Score
    var testRecog: real

    /** The state `clear` leaves (and the initial state). */
    ghost predicate Cleared()
      reads this
    {
      iterations == map[] && epoch == 0 && iteration == 0 &&
      trainScore == PositiveInfinity && trainRecog == 0.0 &&
      testScore == PositiveInfinity && testRecog == 0.0
    }

    constructor ()
      ensures Cleared()
    {
      iterations := map[];
      epoch := 0;
      iteration := 0;
      trainScore := PositiveInfinity;
      trainRecog := 0.0;
      testScore := PositiveInfinity;
      testRecog := 0.0;
    }

    method Clear()
      modifies this
      ensures Cleared()
    {
      iterations := map[];
      epoch := 0;
      iteration := 0;
      trainScore := PositiveInfinity;
      trainRecog := 0.0;
      testScore := PositiveInfinity;
      testRecog := 0.0;
    }
  }

  // ---------------------------------------------------------------------------
  // Preparing data
  // ---------------------------------------------------------------------------

  /** A record's pixels as a row of reals. */
  function ToReals(pixels: seq<int>): (row: seq<real>)
    ensures |row| == |pixels| && forall i :: 0 <= i < |pixels| ==> row[i] == pixels[i] as real
  {
    seq(|pixels|, i requires 0 <= i < |pixels| => pixels[i] as real)
  }

  /** The label row of a digit: 1.0 at the digit's position among ten, 0.0 elsewhere. */
  function OneHot(digit: int): (row: seq<real>)
    ensures |row| == OutputSize
  {
    seq(OutputSize, i requires 0 <= i < OutputSize => if i == digit then 1.0 else 0.0)
  }

  /**
   * The network's `best` recovers a digit from its label row; a label byte of 10
   * or more gives a row of zeros, which reads as digit 0.
   */
  lemma OneHotBest(digit: int)
    ensures 0 <= digit < OutputSize ==> Best(OneHot(digit)) == digit
    ensures !(0 <= digit < OutputSize) ==>
      (forall i :: 0 <= i < OutputSize ==> OneHot(digit)[i] == 0.0) && Best(OneHot(digit)) == 0
  {
    var row := OneHot(digit);
    var k := Best(row);
    if 0 <= digit < OutputSize {
      assert row[digit] == 1.0;
    } else {
      assert row[0] == 0.0;
    }
  }

  /** The pixel rows and the label rows of the records, in file order. */
  function Rows(records: seq<Record>): (m: (Matrix, Matrix))
    ensures |m.0| == |records| && |m.1| == |records|
    ensures forall k :: 0 <= k < |records| ==>
      m.0[k] == ToReals(records[k].pixels) && m.1[k] == OneHot(records[k].digit)
  {
    (seq(|records|, k requires 0 <= k < |records| => ToReals(records[k].pixels)),
     seq(|records|, k requires 0 <= k < |records| => OneHot(records[k].digit)))
  }

  lemma RowsSnoc(records: seq<Record>, record: Record)
    ensures Rows(records + [record]) ==
      (Rows(records).0 + [ToReals(record.pixels)], Rows(records).1 + [OneHot(record.digit)])
  {
    var l, r := Rows(records + [record]), Rows(records);
    assert l.0 == r.0 + [ToReals(record.pixels)];
    assert l.1 == r.1 + [OneHot(record.digit)];
  }

  /** The records `records` read before the outcome `r` of reading on. */
  function Prepend(records: seq<Record>, r: Result<seq<Record>, IdxError>): Result<seq<Record>, IdxError>
  {
    match r
    case Failure(e) => Failure(e)
    case Success(rest) => Success(records + rest)
  }

  lemma PrependAssociates(a: seq<Record>, b: seq<Record>, r: Result<seq<Record>, IdxError>)
    ensures Prepend(a, Prepend(b, r)) == Prepend(a + b, r)
  {
    if r.Success? {
      assert a + (b + r.value) == (a + b) + r.value;
    }
  }

  function RowsOf(r: Result<seq<Record>, IdxError>): Result<(Matrix, Matrix), IdxError>
  {
    match r
    case Failure(e) => Failure(e)
    case Success(records) => Success(Rows(records))
  }

  /**
   * What `prepareData` returns for two files: the header's error, the error of
   * the first record that cannot be read, or the rows of every record.
   */
  function Prepared(images: seq<Byte>, labels: seq<Byte>): (r: Result<(Matrix, Matrix), IdxError>)
    ensures r.Success? ==> |r.value.0| == |r.value.1|
  {
    match ParseHeader(images, labels)
    case Failure(e) => Failure(e)
    case Success(h) => RowsOf(ReadAll(images, labels, Wrap32(h.numberOfCols * h.numberOfRows), 16, 4))
  }

  /**
   * How many records `prepareData` counts for two files: none when the header
   * fails, otherwise those read before the end of the images or the first record
   * that cannot be read; on success, one per prepared row.
   */
  function PreparedCount(images: seq<Byte>, labels: seq<Byte>): (c: nat)
    ensures Prepared(images, labels).Success? ==> c == |Prepared(images, labels).value.0|
    ensures ParseHeader(images, labels).Failure? ==> c == 0
  {
    match ParseHeader(images, labels)
    case Failure(_) => 0
    case Success(h) => ReadCount(images, labels, Wrap32(h.numberOfCols * h.numberOfRows), 16, 4)
  }

  /** Reading from the start gives the records `read`, then whatever reading on from the cursors gives. */
  ghost predicate Reading(images: seq<Byte>, labels: seq<Byte>, n: int, read: seq<Record>, imagePos: nat, labelPos: nat)
  {
    16 <= imagePos <= |images| && 4 <= labelPos <= |labels| &&
    ReadAll(images, labels, n, 16, 4) == Prepend(read, ReadAll(images, labels, n, imagePos, labelPos)) &&
    ReadCount(images, labels, n, 16, 4) == |read| + ReadCount(images, labels, n, imagePos, labelPos)
  }

  lemma ReadingStep(images: seq<Byte>, labels: seq<Byte>, n: int, read: seq<Record>, imagePos: nat, labelPos: nat,
                    record: Record)
    requires Reading(images, labels, n, read, imagePos, labelPos)
    requires imagePos < |images| && labelPos < |labels| && 0 <= n && imagePos + n <= |images|
    requires record == Record(labels[labelPos] as int, Unsigned(images, imagePos, n))
    ensures Reading(images, labels, n, read + [record], imagePos + n, labelPos + 1)
  {
    var rest := ReadAll(images, labels, n, imagePos + n, labelPos + 1);
    assert ReadAll(images, labels, n, imagePos, labelPos) == Prepend([record], rest);
    PrependAssociates(read, [record], rest);
  }

  lemma ReadingFails(images: seq<Byte>, labels: seq<Byte>, n: int, read: seq<Record>, imagePos: nat, labelPos: nat,
                     e: IdxError)
    requires Reading(images, labels, n, read, imagePos, labelPos) && imagePos < |images|
    requires (labelPos == |labels| && e == EndOfFile) ||
             (labelPos < |labels| && n < 0 && e == NegativeArraySize) ||
             (labelPos < |labels| && 0 <= n && imagePos + n > |images| && e == EndOfFile)
    ensures ReadAll(images, labels, n, 16, 4) == Failure(e) && ReadCount(images, labels, n, 16, 4) == |read|
  {
  }

  lemma ReadingDone(images: seq<Byte>, labels: seq<Byte>, n: int, read: seq<Record>, labelPos: nat)
    requires Reading(images, labels, n, read, |images|, labelPos)
    ensures ReadAll(images, labels, n, 16, 4) == Success(read) && ReadCount(images, labels, n, 16, 4) == |read|
  {
    assert read + [] == read;
  }

  /**
   * Row `k` of prepared data is the `k`-th record of the files: its pixels as
   * reals and the one-hot row of its label byte, from which `best` gives the
   * label back. With 28 x 28 images the rows are as wide as the network's input
   * and output.
   */
  lemma PreparedRow(images: seq<Byte>, labels: seq<Byte>, k: nat)
    requires Prepared(images, labels).Success? && k < |Prepared(images, labels).value.0|
    ensures var h := ParseHeader(images, labels).value;
      var n := Wrap32(h.numberOfCols * h.numberOfRows);
      var m := Prepared(images, labels).value;
      n >= 0 && |m.1| == |m.0| && 4 + k < |labels| && 16 + (k + 1) * n <= |images| &&
      m.0[k] == ToReals(RecordAt(images, labels, n, k).pixels) &&
      m.1[k] == OneHot(labels[4 + k] as int) &&
      (labels[4 + k] as int < OutputSize ==> Best(m.1[k]) == labels[4 + k] as int)
    ensures var h := ParseHeader(images, labels).value;
      var m := Prepared(images, labels).value;
      h.numberOfRows == 28 && h.numberOfCols == 28 ==> |m.0[k]| == InputSize && |m.1[k]| == OutputSize
  {
    var h := ParseHeader(images, labels).value;
    var n := Wrap32(h.numberOfCols * h.numberOfRows);
    var records := ReadAll(images, labels, n, 16, 4).value;
    assert Prepared(images, labels).value == Rows(records);
    ReadAllRecord(images, labels, n, 0, k);
    OneHotBest(labels[4 + k] as int);
  }

  lemma UnzipSnoc(ps: seq<Example>, p: Example)
    ensures Firsts(ps + [p]) == Firsts(ps) + [p.0] && Seconds(ps + [p]) == Seconds(ps) + [p.1]
  {
    assert Firsts(ps + [p]) == Firsts(ps) + [p.0];
    assert Seconds(ps + [p]) == Seconds(ps) + [p.1];
  }

  /** `ws` are the weights after training `ws0` on the batches `done` of epoch `j`. */
  ghost predicate TrainedOn(sigma: real -> real, ws0: seq<Matrix>, sizes: seq<nat>, learningRate: real, j: nat,
                            done: seq<seq<Example>>, ws: seq<Matrix>)
  {
    WellShaped(ws0, sizes) && AllFit(Calls(j, done), sizes[0], sizes[|ws0|]) &&
    ws == TrainAll(sigma, ws0, sizes, learningRate, Calls(j, done))
  }

  /** Training on one more batch after the batches `done`. */
  lemma TrainSnoc(sigma: real -> real, ws0: seq<Matrix>, sizes: seq<nat>, learningRate: real, j: nat,
                  done: seq<seq<Example>>, batch: seq<Example>, ws: seq<Matrix>)
    requires TrainedOn(sigma, ws0, sizes, learningRate, j, done, ws)
    requires Fits(CallOf(j, batch), sizes[0], sizes[|ws0|])
    ensures WellShaped(ws, sizes) && |ws| == |ws0|
    ensures TrainedOn(sigma, ws0, sizes, learningRate, j, done + [batch],
                      TrainedWeights(sigma, ws, sizes, learningRate, Firsts(batch), Seconds(batch)))
  {
    var cs := Calls(j, done + [batch]);
    assert cs == Calls(j, done) + [CallOf(j, batch)];
    assert cs[..|cs| - 1] == Calls(j, done);
  }

  /**
   * The session so far agrees with `Drive`: when it has finished, with all of it,
   * flag included; otherwise it has not ended, has not read the flag set, and the
   * calls made lead on to what epochs `j` onward make.
   */
  ghost predicate Session(limit: int, b: nat, env: Environment, examples: seq<Example>, epoch0: int, iteration0: int,
                          calls: seq<TrainCall>, j: nat, epoch: int, iteration: int, finished: bool, outcome: Outcome,
                          flag: bool)
    requires b >= 1
  {
    var whole := Drive(1, limit, b, env, examples, epoch0, iteration0);
    if finished then whole == Run(calls, outcome, epoch, iteration, flag)
    else outcome == EpochLimitReached && !flag && whole == Then(calls, Drive(j, limit, b, env, examples, epoch, iteration))
  }

  lemma SessionAdvance(limit: int, b: nat, env: Environment, examples: seq<Example>, epoch0: int, iteration0: int,
                       calls: seq<TrainCall>, j: nat, epoch: int, iteration: int)
    requires b >= 1 && j <= limit
    requires Session(limit, b, env, examples, epoch0, iteration0, calls, j, epoch, iteration, false, EpochLimitReached,
                     false)
    ensures var e := Epoch(env.shuffle(j, examples), b, env.stopBefore, j);
      var it := if e.fullBatches > 0 then e.fullBatches else iteration;
      var exit := !e.stopped && ShouldExit(env.observed(j));
      Session(limit, b, env, examples, epoch0, iteration0, calls + Calls(j, e.batches),
              if e.stopped || exit then j else j + 1, j, it, e.stopped || exit,
              if e.stopped then StoppedByUser else if exit then EarlyExit else EpochLimitReached,
              e.stopped || (exit && env.observed(j).shouldStop))
  {
    DriveStep(j, limit, b, env, examples, epoch, iteration, calls);
  }

  lemma SessionEnd(limit: int, b: nat, env: Environment, examples: seq<Example>, epoch0: int, iteration0: int,
                   calls: seq<TrainCall>, j: nat, epoch: int, iteration: int)
    requires b >= 1 && limit < j
    requires Session(limit, b, env, examples, epoch0, iteration0, calls, j, epoch, iteration, false, EpochLimitReached,
                     false)
    ensures Session(limit, b, env, examples, epoch0, iteration0, calls, j, epoch, iteration, true, EpochLimitReached,
                    false)
  {
    DriveEnd(j, limit, b, env, examples, epoch, iteration, calls);
  }

  /**
   * The network is well shaped with 784 inputs and 10 outputs, every call in
   * `calls` is one it accepts, and its weights are `w0` trained on `calls` in order.
   */
  ghost predicate Progress(network: Network, w0: seq<Matrix>, calls: seq<TrainCall>)
    reads network
  {
    network.Valid() && network.inputSize == InputSize && network.outputSize == OutputSize &&
    WellShaped(w0, network.Shape()) && AllFit(calls, InputSize, OutputSize) &&
    network.weights == TrainAll(network.sigma, w0, network.Shape(), network.learningRate, calls)
  }

  /** An epoch's training, after the calls of the epochs before it, is training on all of them. */
  lemma SessionStep(sigma: real -> real, ws0: seq<Matrix>, sizes: seq<nat>, learningRate: real,
                    calls: seq<TrainCall>, j: nat, batches: seq<seq<Example>>, mid: seq<Matrix>, ws: seq<Matrix>)
    requires WellShaped(ws0, sizes) && AllFit(calls, sizes[0], sizes[|ws0|])
    requires mid == TrainAll(sigma, ws0, sizes, learningRate, calls)
    requires TrainedOn(sigma, mid, sizes, learningRate, j, batches, ws)
    ensures AllFit(calls + Calls(j, batches), sizes[0], sizes[|ws0|])
    ensures ws == TrainAll(sigma, ws0, sizes, learningRate, calls + Calls(j, batches))
  {
    TrainAllAppend(sigma, ws0, sizes, learningRate, calls, Calls(j, batches));
  }

  /** Where an epoch's pass stands after `t` shuffled examples. */
  ghost predicate EpochState(s: seq<Example>, t: nat, b: nat, done: seq<seq<Example>>, pending: seq<Example>)
  {
    Batched(s, t, b, done, pending) && Shaped(pending) && (forall k :: 0 <= k < |done| ==> Shaped(done[k]))
  }

  /** The pass after `t` examples, with the pending batch kept as its pixel rows and label rows. */
  ghost predicate Pass(s: seq<Example>, t: nat, b: nat, done: seq<seq<Example>>, pending: seq<Example>,
                       dataBatch: Matrix, labelBatch: Matrix)
  {
    EpochState(s, t, b, done, pending) && dataBatch == Firsts(pending) && labelBatch == Seconds(pending)
  }

  /**
   * Appending example `t` to the pending batch: the batch is one the network can
   * train on, and the flush test against `batchSize` decides between flushing a
   * full batch and keeping it pending.
   */
  lemma PassStep(s: seq<Example>, t: nat, batchSize: int, done: seq<seq<Example>>, pending: seq<Example>,
                 dataBatch: Matrix, labelBatch: Matrix, j: nat)
    requires Pass(s, t, BatchLimit(batchSize), done, pending, dataBatch, labelBatch) && t < |s| && Shaped(s)
    ensures var p, d, l := pending + [s[t]], dataBatch + [s[t].0], labelBatch + [s[t].1];
      |d| > 0 && IsShape(d, |d|, InputSize) && IsShape(l, |d|, OutputSize) &&
      Fits(CallOf(j, p), InputSize, OutputSize) && d == Firsts(p) && l == Seconds(p) &&
      (|d| >= batchSize ==> Pass(s, t + 1, BatchLimit(batchSize), done + [p], [], [], [])) &&
      (|d| < batchSize ==> Pass(s, t + 1, BatchLimit(batchSize), done, p, d, l))
  {
    var b := BatchLimit(batchSize);
    var p := pending + [s[t]];
    BatchedStep(s, t, b, done, pending);
    assert Shaped(p);
    BatchFits(j, p);
    UnzipSnoc(pending, s[t]);
    FlushTest(batchSize, |p|);
    assert Firsts<seq<real>, seq<real>>([]) == [] && Seconds<seq<real>, seq<real>>([]) == [];
  }

  lemma EpochStopped(s: seq<Example>, b: nat, stopBefore: (nat, nat) -> bool, j: nat, t: nat,
                     done: seq<seq<Example>>, pending: seq<Example>)
    requires EpochState(s, t, b, done, pending) && t < |s| && stopBefore(j, t)
    requires t <= StopIndex(stopBefore, j, 0, |s|)
    ensures Epoch(s, b, stopBefore, j) == EpochRun(done, true, |done|)
  {
    BatchedPrefix(s, t, b, done, pending);
  }

  lemma EpochFinished(s: seq<Example>, b: nat, stopBefore: (nat, nat) -> bool, j: nat,
                      done: seq<seq<Example>>, pending: seq<Example>)
    requires EpochState(s, |s|, b, done, pending)
    requires StopIndex(stopBefore, j, 0, |s|) == |s|
    ensures Epoch(s, b, stopBefore, j) ==
      EpochRun(done + (if pending == [] then [] else [pending]), false, |done|)
  {
    BatchedEnd(s, b, done, pending);
  }

  // ---------------------------------------------------------------------------
  // The overseer
  // ---------------------------------------------------------------------------

  class Overseer {
    /** The training pixel rows and label rows. */
    var trainingData: (Matrix, Matrix)
    /** The stop flag the user interface sets. */
    var shouldStop: bool
    const holder: DataHolder

    constructor (holder: DataHolder)
      ensures this.holder == holder && trainingData == ([], []) && !shouldStop
    {
      this.holder := holder;
      trainingData := ([], []);
      shouldStop := false;
    }

    /**
     * `prepareData`: opens the reader and appends one pixel row and one label row
     * per record, counting records under `kind` in the holder as it goes.
     */
    method PrepareData(kind: string, images: seq<Byte>, labels: seq<Byte>)
      returns (r: Result<(Matrix, Matrix), IdxError>, ghost read: nat)
      modifies holder`iterations
      ensures r == Prepared(images, labels) && read == PreparedCount(images, labels)
      ensures r.Success? ==> read == |r.value.0|
      ensures holder.iterations == if read == 0 then old(holder.iterations) else old(holder.iterations)[kind := read]
    {
      var reader := Idx.Open(images, labels);
      if reader.Failure? {
        return Failure(reader.error), 0;
      }
      var idx := reader.value;
      r, read := ReadRecords(kind, idx);
    }

    /** The `forEach` of `prepareData` over a reader that has just read the headers. */
    method ReadRecords(kind: string, idx: Idx) returns (r: Result<(Matrix, Matrix), IdxError>, ghost read: nat)
      requires idx.Valid() && idx.imagePos == 16 && idx.labelPos == 4
      modifies holder`iterations, idx`imagePos, idx`labelPos, idx`served
      ensures var all := ReadAll(idx.images, idx.labels, idx.PixelCount(), 16, 4);
        r == RowsOf(all) && read == ReadCount(idx.images, idx.labels, idx.PixelCount(), 16, 4)
      ensures r.Success? ==> read == |r.value.0|
      ensures holder.iterations == if read == 0 then old(holder.iterations) else old(holder.iterations)[kind := read]
    {
      ghost var images, labels, n := idx.images, idx.labels, idx.PixelCount();
      var dataList: Matrix := [];
      var labelList: Matrix := [];
      var i := 0;
      ghost var records: seq<Record> := [];
      assert Reading(images, labels, n, records, idx.imagePos, idx.labelPos) by {
        var all := ReadAll(images, labels, n, 16, 4);
        if all.Success? {
          assert [] + all.value == all.value;
        }
      }
      while idx.HasNext()
        invariant idx.Valid() && Reading(images, labels, n, records, idx.imagePos, idx.labelPos)
        invariant i == |records| && (dataList, labelList) == Rows(records)
        invariant holder.iterations == if i == 0 then old(holder.iterations) else old(holder.iterations)[kind := i]
        decreases |images| - idx.imagePos + |labels| - idx.labelPos
      {
        ghost var imagePos, labelPos := idx.imagePos, idx.labelPos;
        var next := idx.Next();
        if next.Failure? {
          ReadingFails(images, labels, n, records, imagePos, labelPos, next.error);
          return Failure(next.error), i;
        }
        var record := next.value;
        ReadingStep(images, labels, n, records, imagePos, labelPos, record);
        RowsSnoc(records, record);
        i := i + 1;
        holder.iterations := holder.iterations[kind := i];
        dataList := dataList + [ToReals(record.pixels)];
        labelList := labelList + [OneHot(record.digit)];
        records := records + [record];
      }
      ReadingDone(images, labels, n, records, idx.labelPos);
      r, read := Success((dataList, labelList)), i;
    }

    /**
     * `train`: a fresh network with the given learning rate, then epochs 1 to
     * `epochLimit`, each over a new shuffle of the training pairs, until the stop
     * flag is seen or an epoch's end meets the early-exit test.
     */
    method Train(learningRate: real, batchSize: int, epochLimit: int, hiddenLayer: seq<nat>,
                 sigma: real -> real, rnd: (nat, nat, nat) -> real, env: Environment)
      returns (network: Network, outcome: Outcome, ghost calls: seq<TrainCall>)
      requires Shuffles(env)
      requires IsShape(trainingData.0, |trainingData.0|, InputSize)
      requires IsShape(trainingData.1, |trainingData.1|, OutputSize)
      modifies this`shouldStop, holder
      ensures fresh(network) && network.Valid() && network.learningRate == learningRate
      ensures network.inputSize == InputSize && network.outputSize == OutputSize
      ensures network.hiddenSizes == hiddenLayer && network.sigma == sigma
      ensures Run(calls, outcome, holder.epoch, holder.iteration, shouldStop) ==
        Drive(1, epochLimit, BatchLimit(batchSize), env, Zip(trainingData.0, trainingData.1), 0, 0)
      ensures AllFit(calls, InputSize, OutputSize)
      ensures network.weights == TrainAll(sigma, InitializeWeights(InputSize, OutputSize, hiddenLayer, rnd),
                                          network.Shape(), learningRate, calls)
      ensures holder.iterations == map[]
    {
      shouldStop := false;
      holder.Clear();
      network := new Network(InputSize, OutputSize, hiddenLayer, sigma, rnd);
      network := network.With(learningRate);
      var examples := Zip(trainingData.0, trainingData.1);
      assert Shaped(examples);
      outcome, shouldStop, calls := Epochs(network, examples, batchSize, epochLimit, env);
    }

    /** The epoch loop of `train`, from the counters the holder holds. */
    method Epochs(network: Network, examples: seq<Example>, batchSize: int, epochLimit: int, env: Environment)
      returns (outcome: Outcome, flag: bool, ghost calls: seq<TrainCall>)
      requires network.Valid() && network.inputSize == InputSize && network.outputSize == OutputSize
      requires Shuffles(env) && Shaped(examples)
      modifies network`weights, holder`epoch, holder`iteration
      ensures Run(calls, outcome, holder.epoch, holder.iteration, flag) ==
        Drive(1, epochLimit, BatchLimit(batchSize), env, examples, old(holder.epoch), old(holder.iteration))
      ensures Progress(network, old(network.weights), calls)
    {
      ghost var w0 := network.weights;
      ghost var b := BatchLimit(batchSize);
      ghost var epoch0, iteration0 := holder.epoch, holder.iteration;
      calls := [];
      assert w0 == TrainAll(network.sigma, w0, network.Shape(), network.learningRate, calls);
      outcome, flag := EpochLimitReached, false;
      var finished := false;
      var j: nat := 1;
      while !finished && j <= epochLimit
        invariant j >= 1
        invariant Progress(network, w0, calls)
        invariant Session(epochLimit, b, env, examples, epoch0, iteration0, calls, j, holder.epoch, holder.iteration,
                          finished, outcome, flag)
        decreases epochLimit - j, !finished
      {
        finished, outcome, flag, calls :=
          SessionEpoch(network, w0, calls, j, examples, batchSize, epochLimit, env, epoch0, iteration0);
        if !finished {
          j := j + 1;
        }
      }
      if !finished {
        SessionEnd(epochLimit, b, env, examples, epoch0, iteration0, calls, j, holder.epoch, holder.iteration);
      }
    }

    /**
     * Epoch `j` of the loop and the test after it: whether the session ends
     * there, why, and the stop flag as the session last read it.
     */
    method SessionEpoch(network: Network, ghost w0: seq<Matrix>, ghost calls: seq<TrainCall>, j: nat,
                        examples: seq<Example>, batchSize: int, epochLimit: int, env: Environment,
                        ghost epoch0: int, ghost iteration0: int)
      returns (finished: bool, outcome: Outcome, flag: bool, ghost calls': seq<TrainCall>)
      requires Progress(network, w0, calls)
      requires Shuffles(env) && Shaped(examples) && 1 <= j <= epochLimit
      requires Session(epochLimit, BatchLimit(batchSize), env, examples, epoch0, iteration0, calls, j,
                       holder.epoch, holder.iteration, false, EpochLimitReached, false)
      modifies network`weights, holder`epoch, holder`iteration
      ensures Progress(network, w0, calls')
      ensures Session(epochLimit, BatchLimit(batchSize), env, examples, epoch0, iteration0, calls',
                      if finished then j else j + 1, holder.epoch, holder.iteration, finished, outcome, flag)
      ensures !finished <==> outcome == EpochLimitReached
      ensures !finished ==> !flag
    {
      ghost var epoch, iteration := holder.epoch, holder.iteration;
      ghost var mid := network.weights;
      ghost var batches;
      var stopped;
      stopped, batches := RunEpoch(network, j, examples, batchSize, env);
      SessionStep(network.sigma, w0, network.Shape(), network.learningRate, calls, j, batches, mid, network.weights);
      SessionAdvance(epochLimit, BatchLimit(batchSize), env, examples, epoch0, iteration0, calls, j, epoch, iteration);
      calls' := calls + Calls(j, batches);
      // The user interface sets the flag; it is recorded as the session reads it.
      if stopped {
        finished, outcome, flag := true, StoppedByUser, true;
      } else if ShouldExit(env.observed(j)) {
        finished, outcome, flag := true, EarlyExit, env.observed(j).shouldStop;
      } else {
        finished, outcome, flag := false, EpochLimitReached, false;
      }
    }

    /** Epoch `j` of the loop: publish the epoch number, shuffle the pairs and make the epoch's pass over them. */
    method RunEpoch(network: Network, j: nat, examples: seq<Example>, batchSize: int, env: Environment)
      returns (stopped: bool, ghost batches: seq<seq<Example>>)
      requires network.Valid() && network.inputSize == InputSize && network.outputSize == OutputSize
      requires Shuffles(env) && Shaped(examples)
      modifies network`weights, holder`epoch, holder`iteration
      ensures network.Valid()
      ensures var e := Epoch(env.shuffle(j, examples), BatchLimit(batchSize), env.stopBefore, j);
        stopped == e.stopped && batches == e.batches && holder.epoch == j &&
        holder.iteration == (if e.fullBatches > 0 then e.fullBatches else old(holder.iteration)) &&
        TrainedOn(network.sigma, old(network.weights), network.Shape(), network.learningRate, j, e.batches,
                  network.weights)
    {
      holder.epoch := j;
      var trainingSet := env.shuffle(j, examples);
      PermutedShaped(examples, trainingSet);
      stopped := TrainEpoch(network, j, trainingSet, batchSize, env);
      batches := Epoch(trainingSet, BatchLimit(batchSize), env.stopBefore, j).batches;
    }

    /**
     * One epoch's pass over the shuffled pairs: append each pair to the pending
     * batch, train and empty the batch once it is full, and train what is pending
     * at the end. Returns whether the stop flag cut the epoch short.
     */
    method TrainEpoch(network: Network, j: nat, trainingSet: seq<Example>, batchSize: int, env: Environment)
      returns (stopped: bool)
      requires network.Valid() && network.inputSize == InputSize && network.outputSize == OutputSize
      requires Shaped(trainingSet)
      modifies network`weights, holder`iteration
      ensures network.Valid()
      ensures var e := Epoch(trainingSet, BatchLimit(batchSize), env.stopBefore, j);
        stopped == e.stopped &&
        holder.iteration == (if e.fullBatches > 0 then e.fullBatches else old(holder.iteration)) &&
        TrainedOn(network.sigma, old(network.weights), network.Shape(), network.learningRate, j, e.batches,
                  network.weights)
    {
      ghost var b := BatchLimit(batchSize);
      ghost var w := network.weights;
      var dataBatch, labelBatch;
      ghost var done, pending;
      stopped, dataBatch, labelBatch, done, pending := PassOver(network, j, trainingSet, batchSize, env);
      if stopped {
        return;
      }
      EpochFinished(trainingSet, b, env.stopBefore, j, done, pending);
      if |dataBatch| != 0 {
        TrainBatch(network, w, j, done, pending, dataBatch, labelBatch);
      } else {
        assert pending == [] && done + [] == done;
      }
    }

    /**
     * The loop of an epoch's pass: runs until the stop flag is seen or the pairs
     * run out, training each batch that fills up; returns what is still pending.
     */
    method PassOver(network: Network, j: nat, trainingSet: seq<Example>, batchSize: int, env: Environment)
      returns (stopped: bool, dataBatch: Matrix, labelBatch: Matrix,
               ghost done: seq<seq<Example>>, ghost pending: seq<Example>)
      requires network.Valid() && network.inputSize == InputSize && network.outputSize == OutputSize
      requires Shaped(trainingSet)
      modifies network`weights, holder`iteration
      ensures network.Valid()
      ensures holder.iteration == if |done| > 0 then |done| else old(holder.iteration)
      ensures TrainedOn(network.sigma, old(network.weights), network.Shape(), network.learningRate, j, done,
                        network.weights)
      ensures stopped ==> Epoch(trainingSet, BatchLimit(batchSize), env.stopBefore, j) == EpochRun(done, true, |done|)
      ensures !stopped ==> StopIndex(env.stopBefore, j, 0, |trainingSet|) == |trainingSet|
      ensures !stopped ==> Pass(trainingSet, |trainingSet|, BatchLimit(batchSize), done, pending, dataBatch, labelBatch)
    {
      ghost var b := BatchLimit(batchSize);
      ghost var w := network.weights;
      ghost var stop := StopIndex(env.stopBefore, j, 0, |trainingSet|);
      dataBatch, labelBatch := [], [];
      pending, done := [], [];
      assert trainingSet[..0] == [];
      var i := 0;
      var t := 0;
      while t < |trainingSet|
        invariant t <= stop
        invariant network.Valid()
        invariant Pass(trainingSet, t, b, done, pending, dataBatch, labelBatch)
        invariant i == |done| && holder.iteration == if i > 0 then i else old(holder.iteration)
        invariant TrainedOn(network.sigma, w, network.Shape(), network.learningRate, j, done, network.weights)
      {
        if env.stopBefore(j, t) {
          EpochStopped(trainingSet, b, env.stopBefore, j, t, done, pending);
          return true, dataBatch, labelBatch, done, pending;
        }
        var example := trainingSet[t];
        PassStep(trainingSet, t, batchSize, done, pending, dataBatch, labelBatch, j);
        dataBatch := dataBatch + [example.0];
        labelBatch := labelBatch + [example.1];
        pending := pending + [example];
        if |dataBatch| >= batchSize {
          i := i + 1;
          holder.iteration := i;
          TrainBatch(network, w, j, done, pending, dataBatch, labelBatch);
          done := done + [pending];
          dataBatch, labelBatch := [], [];
          pending := [];
        }
        t := t + 1;
      }
      stopped := false;
    }
  
    /** Trains the network on one more batch of epoch `j`, given as its pixel rows and label rows. */
    method TrainBatch(network: Network, ghost w: seq<Matrix>, j: nat, ghost done: seq<seq<Example>>,
                      ghost batch: seq<Example>, dataBatch: Matrix, labelBatch: Matrix)
      requires network.Valid() && network.inputSize == InputSize && network.outputSize == OutputSize
      requires TrainedOn(network.sigma, w, network.Shape(), network.learningRate, j, done, network.weights)
      requires Fits(CallOf(j, batch), InputSize, OutputSize)
      requires dataBatch == Firsts(batch) && labelBatch == Seconds(batch)
      modifies network`weights
      ensures network.Valid()
      ensures TrainedOn(network.sigma, w, network.Shape(), network.learningRate, j, done + [batch], network.weights)
    {
      TrainSnoc(network.sigma, w, network.Shape(), network.learningRate, j, done, batch, network.weights);
      network.Train(dataBatch, labelBatch);
    }
  }
}
