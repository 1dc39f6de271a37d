/**
 * What a training session does, as functions of what it cannot decide itself:
 * the shuffle of every epoch, the moments the user's stop flag is seen set, and
 * the test results the plotting threads have published when an epoch ends.
 * `Drive` lists every call of the network's `train` a session makes, the reason
 * it ends, and the epoch and iteration counters it leaves behind.
 */
module Training {
  import opened Collections
  import opened Matrices
  import opened Batching
  import opened NeuralNetwork

  /** The network the driver trains reads 28 x 28 pixels and scores 10 digits. */
  const InputSize: nat := 784
  const OutputSize: nat := 10

  /** A training example: a pixel row and its one-hot label row. */
  type Example = (seq<real>, seq<real>)

  /** Every example has a pixel row of `InputSize` and a label row of `OutputSize`. */
  predicate Shaped(xs: seq<Example>)
  {
    forall k :: 0 <= k < |xs| ==> |xs[k].0| == InputSize && |xs[k].1| == OutputSize
  }

  /** A cost that starts out as positive infinity. */
  datatype Score = PositiveInfinity | Finite(value: real)

  /** What the end-of-epoch test reads: the published test recognition rate and cost, and the stop flag. */
  datatype Observation = Observation(testRecog: real, testScore: Score, shouldStop: bool)

  /** The early-exit test at the end of an epoch. */
  predicate ShouldExit(o: Observation)
    ensures o.shouldStop ==> ShouldExit(o)
    ensures o.testRecog > 90.0 ==> ShouldExit(o)
  {
    o.testRecog > 90.0 || (o.testScore.Finite? && o.testScore.value < 0.001) || o.shouldStop
  }

  /**
   * The session's surroundings: `shuffle(j, xs)` is epoch `j`'s order of the
   * examples, `stopBefore(j, t)` whether the stop flag is seen set before the
   * `t`-th example of epoch `j`, `observed(j)` what the test at the end of epoch
   * `j` reads.
   */
  datatype Environment = Environment(
    shuffle: (nat, seq<Example>) -> seq<Example>,
    stopBefore: (nat, nat) -> bool,
    observed: nat -> Observation)

  /** `shuffled()` returns a permutation. */
  ghost predicate Shuffles(env: Environment)
  {
    forall j: nat, xs: seq<Example> :: multiset(env.shuffle(j, xs)) == multiset(xs)
  }

  /** A permutation of shaped examples is shaped. */
  lemma PermutedShaped(xs: seq<Example>, ys: seq<Example>)
    requires Shaped(xs) && multiset(xs) == multiset(ys)
    ensures Shaped(ys)
  {
    forall k | 0 <= k < |ys|
      ensures |ys[k].0| == InputSize && |ys[k].1| == OutputSize
    {
      assert ys[k] in multiset(ys);
      assert ys[k] in xs;
    }
  }

  // ---------------------------------------------------------------------------
  // Calls of the network's train
  // ---------------------------------------------------------------------------

  /** One call of `network.train`, made in epoch `epoch`. */
  datatype TrainCall = TrainCall(epoch: nat, data: Matrix, labels: Matrix)

  /** The call for one batch: its pixel rows and its label rows, in batch order. */
  function CallOf(epoch: nat, batch: seq<Example>): (c: TrainCall)
    ensures c.epoch == epoch && |c.data| == |batch| && |c.labels| == |batch|
    ensures Zip(c.data, c.labels) == batch
  {
    ZipUnzip(batch);
    TrainCall(epoch, Firsts(batch), Seconds(batch))
  }

  function Calls(epoch: nat, batches: seq<seq<Example>>): (cs: seq<TrainCall>)
    ensures |cs| == |batches| && forall k :: 0 <= k < |batches| ==> cs[k] == CallOf(epoch, batches[k])
  {
    seq(|batches|, k requires 0 <= k < |batches| => CallOf(epoch, batches[k]))
  }

  lemma CallsAppend(epoch: nat, a: seq<seq<Example>>, b: seq<seq<Example>>)
    ensures Calls(epoch, a + b) == Calls(epoch, a) + Calls(epoch, b)
  {
    var l, r := Calls(epoch, a + b), Calls(epoch, a) + Calls(epoch, b);
    assert |l| == |r|;
    forall k | 0 <= k < |l|
      ensures l[k] == r[k]
    {
      if k < |a| {
        assert (a + b)[k] == a[k];
      } else {
        assert (a + b)[k] == b[k - |a|];
      }
    }
  }

  /** A call the network accepts: a non-empty batch with rows of the input and output widths. */
  predicate Fits(c: TrainCall, inSize: nat, outSize: nat)
  {
    |c.data| > 0 && IsShape(c.data, |c.data|, inSize) && IsShape(c.labels, |c.data|, outSize)
  }

  predicate AllFit(calls: seq<TrainCall>, inSize: nat, outSize: nat)
  {
    forall k :: 0 <= k < |calls| ==> Fits(calls[k], inSize, outSize)
  }

  /** A non-empty batch of shaped examples gives a call the network accepts. */
  lemma BatchFits(epoch: nat, batch: seq<Example>)
    requires |batch| > 0 && Shaped(batch)
    ensures Fits(CallOf(epoch, batch), InputSize, OutputSize)
  {
  }

  /** The weights after the calls, in order, each a `TrainedWeights` step. */
  function TrainAll(sigma: real -> real, ws: seq<Matrix>, sizes: seq<nat>, learningRate: real,
                    calls: seq<TrainCall>): (ws': seq<Matrix>)
    requires WellShaped(ws, sizes) && AllFit(calls, sizes[0], sizes[|ws|])
    ensures WellShaped(ws', sizes)
    decreases |calls|
  {
    if calls == [] then ws
    else
      var prior := TrainAll(sigma, ws, sizes, learningRate, calls[..|calls| - 1]);
      var c := calls[|calls| - 1];
      TrainedWeights(sigma, prior, sizes, learningRate, c.data, c.labels)
  }

  /** Training on `a` then on `b` is training on `a + b`. */
  lemma {:induction false} TrainAllAppend(sigma: real -> real, ws: seq<Matrix>, sizes: seq<nat>, learningRate: real,
                                          a: seq<TrainCall>, b: seq<TrainCall>)
    requires WellShaped(ws, sizes) && AllFit(a, sizes[0], sizes[|ws|]) && AllFit(b, sizes[0], sizes[|ws|])
    ensures AllFit(a + b, sizes[0], sizes[|ws|])
    ensures var mid := TrainAll(sigma, ws, sizes, learningRate, a);
      |mid| == |ws| &&
      TrainAll(sigma, ws, sizes, learningRate, a + b) == TrainAll(sigma, mid, sizes, learningRate, b)
    decreases |b|
  {
    assert forall k :: 0 <= k < |a + b| ==> (a + b)[k] == if k < |a| then a[k] else b[k - |a|];
    if b == [] {
      assert a + b == a;
    } else {
      var b' := b[..|b| - 1];
      TrainAllAppend(sigma, ws, sizes, learningRate, a, b');
      assert (a + b)[..|a + b| - 1] == a + b';
    }
  }

  // ---------------------------------------------------------------------------
  // One epoch
  // ---------------------------------------------------------------------------

  /** The first `t` in [from, n) before which the stop flag of epoch `j` is seen set, or `n`. */
  function StopIndex(stopBefore: (nat, nat) -> bool, j: nat, from: nat, n: nat): (t: nat)
    requires from <= n
    ensures from <= t <= n
    ensures t < n ==> stopBefore(j, t)
    ensures forall u :: from <= u < t ==> !stopBefore(j, u)
    decreases n - from
  {
    if from == n || stopBefore(j, from) then from else StopIndex(stopBefore, j, from + 1, n)
  }

  /** The batches one epoch trains, whether the stop flag ended it, and how many full batches it counted. */
  datatype EpochRun = EpochRun(batches: seq<seq<Example>>, stopped: bool, fullBatches: nat)

  /**
   * Epoch `j` over the shuffled examples `s` with batch limit `b`: if the flag is
   * seen set before example `t`, only the full batches of `s[..t]` were trained;
   * otherwise every full batch and then the non-empty remainder.
   */
  function Epoch(s: seq<Example>, b: nat, stopBefore: (nat, nat) -> bool, j: nat): (r: EpochRun)
    requires b >= 1
    ensures r.stopped ==> r.fullBatches == |r.batches|
    ensures !r.stopped ==> r.fullBatches <= |r.batches| <= r.fullBatches + 1
  {
    var t := StopIndex(stopBefore, j, 0, |s|);
    if t < |s| then EpochRun(FullBatches(s[..t], b), true, |FullBatches(s[..t], b)|)
    else EpochRun(EpochBatches(s, b), false, |FullBatches(s, b)|)
  }

  /**
   * An epoch the flag does not stop trains the shuffled examples exactly once, in
   * order, in batches of 1 to `b` examples of which all but the last hold `b`, and
   * counts |s| / b full batches. A stopped epoch trains the examples before the
   * stop point except the fewer than `b` still pending.
   */
  lemma EpochSpec(s: seq<Example>, b: nat, stopBefore: (nat, nat) -> bool, j: nat)
    requires b >= 1
    ensures var e := Epoch(s, b, stopBefore, j);
      forall k :: 0 <= k < |e.batches| ==> 0 < |e.batches[k]| <= b
    ensures var e := Epoch(s, b, stopBefore, j);
      !e.stopped ==>
        Flatten(e.batches) == s && e.fullBatches == |s| / b &&
        (forall t :: 0 <= t < |s| ==> !stopBefore(j, t))
    ensures var e := Epoch(s, b, stopBefore, j);
      var t := StopIndex(stopBefore, j, 0, |s|);
      e.stopped ==>
        t < |s| && stopBefore(j, t) &&
        Flatten(e.batches) + Remainder(s[..t], b) == s[..t] && |Remainder(s[..t], b)| < b &&
        e.fullBatches == t / b
  {
    var t := StopIndex(stopBefore, j, 0, |s|);
    if t < |s| {
      BatchesCover(s[..t], b);
      BatchSizes(s[..t], b);
      BatchCount(s[..t], b);
    } else {
      EpochCovers(s, b);
      BatchCount(s, b);
    }
  }

  // ---------------------------------------------------------------------------
  // The session
  // ---------------------------------------------------------------------------

  datatype Outcome = StoppedByUser | EarlyExit | EpochLimitReached

  /**
   * The calls made, why the session ended, the epoch and iteration counters at
   * the end, and the stop flag as the session last read it.
   */
  datatype Run = Run(calls: seq<TrainCall>, outcome: Outcome, epoch: int, iteration: int, flag: bool)

  /** `calls` made before the rest of the session `r`. */
  function Then(calls: seq<TrainCall>, r: Run): (r': Run)
    ensures r'.calls == calls + r.calls && r'.outcome == r.outcome
    ensures r'.epoch == r.epoch && r'.iteration == r.iteration && r'.flag == r.flag
  {
    Run(calls + r.calls, r.outcome, r.epoch, r.iteration, r.flag)
  }

  /**
   * Epochs `j` to `limit` with batch limit `b`, from counters `epoch` and
   * `iteration`. Each epoch sets the epoch counter; each full batch sets the
   * iteration counter to its number within the epoch, so an epoch with no full
   * batch leaves the counter where the previous epoch left it. The flag is last
   * read set when it cuts an epoch short, and by the test at the end of the
   * epoch otherwise.
   */
  function Drive(j: nat, limit: int, b: nat, env: Environment, examples: seq<Example>,
                 epoch: int, iteration: int): (r: Run)
    requires b >= 1
    ensures r.outcome == StoppedByUser ==> r.flag
    ensures r.outcome == EpochLimitReached ==> !r.flag
    decreases if limit < j then 0 else limit - j + 1
  {
    if j > limit then Run([], EpochLimitReached, epoch, iteration, false)
    else
      var e := Epoch(env.shuffle(j, examples), b, env.stopBefore, j);
      var it := if e.fullBatches > 0 then e.fullBatches else iteration;
      var calls := Calls(j, e.batches);
      if e.stopped then Run(calls, StoppedByUser, j, it, true)
      else if ShouldExit(env.observed(j)) then Run(calls, EarlyExit, j, it, env.observed(j).shouldStop)
      else Then(calls, Drive(j + 1, limit, b, env, examples, j, it))
  }

  /** One epoch of a session, after the calls `calls` of the epochs before it. */
  lemma DriveStep(j: nat, limit: int, b: nat, env: Environment, examples: seq<Example>,
                  epoch: int, iteration: int, calls: seq<TrainCall>)
    requires b >= 1 && j <= limit
    ensures var e := Epoch(env.shuffle(j, examples), b, env.stopBefore, j);
      var it := if e.fullBatches > 0 then e.fullBatches else iteration;
      var calls' := calls + Calls(j, e.batches);
      Then(calls, Drive(j, limit, b, env, examples, epoch, iteration)) ==
        if e.stopped then Run(calls', StoppedByUser, j, it, true)
        else if ShouldExit(env.observed(j)) then Run(calls', EarlyExit, j, it, env.observed(j).shouldStop)
        else Then(calls', Drive(j + 1, limit, b, env, examples, j, it))
  {
    var e := Epoch(env.shuffle(j, examples), b, env.stopBefore, j);
    var it := if e.fullBatches > 0 then e.fullBatches else iteration;
    var ec := Calls(j, e.batches);
    if !e.stopped && !ShouldExit(env.observed(j)) {
      var rest := Drive(j + 1, limit, b, env, examples, j, it);
      assert calls + (ec + rest.calls) == (calls + ec) + rest.calls;
    }
  }

  /** Past the last epoch nothing more happens. */
  lemma DriveEnd(j: nat, limit: int, b: nat, env: Environment, examples: seq<Example>,
                 epoch: int, iteration: int, calls: seq<TrainCall>)
    requires b >= 1 && limit < j
    ensures Then(calls, Drive(j, limit, b, env, examples, epoch, iteration)) ==
      Run(calls, EpochLimitReached, epoch, iteration, false)
  {
    assert calls + [] == calls;
  }

  /**
   * Every call of a session gets a non-empty batch of at most `b` shaped examples,
   * so the network accepts it.
   */
  lemma {:induction false} DriveCallsFit(j: nat, limit: int, b: nat, env: Environment, examples: seq<Example>,
                                         epoch: int, iteration: int)
    requires b >= 1 && Shuffles(env) && Shaped(examples)
    ensures var r := Drive(j, limit, b, env, examples, epoch, iteration);
      AllFit(r.calls, InputSize, OutputSize) &&
      forall k :: 0 <= k < |r.calls| ==> |r.calls[k].data| <= b
    decreases if limit < j then 0 else limit - j + 1
  {
    if j <= limit {
      var s := env.shuffle(j, examples);
      PermutedShaped(examples, s);
      var e := Epoch(s, b, env.stopBefore, j);
      EpochCallsFit(s, b, env.stopBefore, j);
      var it := if e.fullBatches > 0 then e.fullBatches else iteration;
      if !e.stopped && !ShouldExit(env.observed(j)) {
        DriveCallsFit(j + 1, limit, b, env, examples, j, it);
        AllFitAppend(Calls(j, e.batches), Drive(j + 1, limit, b, env, examples, j, it).calls, b);
      }
    }
  }

  /** Joining two lists of fitting calls of at most `b` rows. */
  lemma AllFitAppend(a: seq<TrainCall>, c: seq<TrainCall>, b: nat)
    requires AllFit(a, InputSize, OutputSize) && forall k :: 0 <= k < |a| ==> |a[k].data| <= b
    requires AllFit(c, InputSize, OutputSize) && forall k :: 0 <= k < |c| ==> |c[k].data| <= b
    ensures AllFit(a + c, InputSize, OutputSize) && forall k :: 0 <= k < |a + c| ==> |(a + c)[k].data| <= b
  {
    assert forall k :: 0 <= k < |a + c| ==> (a + c)[k] == if k < |a| then a[k] else c[k - |a|];
  }

  /** The calls of one epoch over shaped examples fit the network and hold at most `b` rows. */
  lemma EpochCallsFit(s: seq<Example>, b: nat, stopBefore: (nat, nat) -> bool, j: nat)
    requires b >= 1 && Shaped(s)
    ensures var calls := Calls(j, Epoch(s, b, stopBefore, j).batches);
      AllFit(calls, InputSize, OutputSize) && forall k :: 0 <= k < |calls| ==> |calls[k].data| <= b
  {
    var e := Epoch(s, b, stopBefore, j);
    EpochSpec(s, b, stopBefore, j);
    var calls := Calls(j, e.batches);
    forall k | 0 <= k < |calls|
      ensures Fits(calls[k], InputSize, OutputSize) && |calls[k].data| <= b
    {
      EpochBatchShaped(s, b, stopBefore, j, k);
      BatchFits(j, e.batches[k]);
    }
  }

  /** The batches of an epoch over shaped examples are shaped. */
  lemma EpochBatchShaped(s: seq<Example>, b: nat, stopBefore: (nat, nat) -> bool, j: nat, k: nat)
    requires b >= 1 && Shaped(s)
    requires k < |Epoch(s, b, stopBefore, j).batches|
    ensures Shaped(Epoch(s, b, stopBefore, j).batches[k])
  {
    var e := Epoch(s, b, stopBefore, j);
    var t := StopIndex(stopBefore, j, 0, |s|);
    var prefix := if t < |s| then s[..t] else s;
    EpochSpec(s, b, stopBefore, j);
    BatchesCover(prefix, b);
    var batch := e.batches[k];
    forall i | 0 <= i < |batch|
      ensures |batch[i].0| == InputSize && |batch[i].1| == OutputSize
    {
      FlattenMember(e.batches, k, i);
      if t < |s| {
        FlattenAppendMember(Flatten(e.batches), Remainder(s[..t], b), batch[i]);
      }
    }
  }

  /** An element of one of the lists is an element of the concatenation. */
  lemma {:induction false} FlattenMember<T>(xss: seq<seq<T>>, k: nat, i: nat)
    requires k < |xss| && i < |xss[k]|
    ensures xss[k][i] in Flatten(xss)
  {
    if k == 0 {
      assert Flatten(xss) == xss[0] + Flatten(xss[1..]);
      assert Flatten(xss)[i] == xss[0][i];
    } else {
      FlattenMember(xss[1..], k - 1, i);
      assert Flatten(xss) == xss[0] + Flatten(xss[1..]);
    }
  }

  lemma FlattenAppendMember<T>(a: seq<T>, b: seq<T>, x: T)
    requires x in a
    ensures x in a + b
  {
    var i :| 0 <= i < |a| && a[i] == x;
    assert (a + b)[i] == x;
  }

  /**
   * Epochs run from `j` up to at most `limit`: every call belongs to one of them,
   * the epoch counter ends on the last one run, and a session with no epochs to
   * run trains nothing and leaves both counters alone.
   */
  lemma {:induction false} DriveEpochs(j: nat, limit: int, b: nat, env: Environment, examples: seq<Example>,
                                       epoch: int, iteration: int)
    requires b >= 1
    ensures var r := Drive(j, limit, b, env, examples, epoch, iteration);
      forall k :: 0 <= k < |r.calls| ==> j <= r.calls[k].epoch <= limit
    ensures var r := Drive(j, limit, b, env, examples, epoch, iteration);
      limit < j ==> r == Run([], EpochLimitReached, epoch, iteration, false)
    ensures var r := Drive(j, limit, b, env, examples, epoch, iteration);
      j <= limit ==> j <= r.epoch <= limit && (r.outcome == EpochLimitReached ==> r.epoch == limit)
    decreases if limit < j then 0 else limit - j + 1
  {
    if j <= limit {
      var e := Epoch(env.shuffle(j, examples), b, env.stopBefore, j);
      var it := if e.fullBatches > 0 then e.fullBatches else iteration;
      if !e.stopped && !ShouldExit(env.observed(j)) {
        DriveEpochs(j + 1, limit, b, env, examples, j, it);
      }
    }
  }

  /**
   * A session ends early only for a reason: the flag was seen set during its
   * last epoch, or that epoch's end met the exit test. The flag is left as last
   * read: set after a stop, as the exit test read it after an early exit, and
   * clear when every epoch ran.
   */
  lemma {:induction false} DriveOutcome(j: nat, limit: int, b: nat, env: Environment, examples: seq<Example>,
                                        epoch: int, iteration: int)
    requires b >= 1
    ensures var r := Drive(j, limit, b, env, examples, epoch, iteration);
      r.outcome == StoppedByUser ==>
        j <= r.epoch && Epoch(env.shuffle(r.epoch, examples), b, env.stopBefore, r.epoch).stopped
    ensures var r := Drive(j, limit, b, env, examples, epoch, iteration);
      r.outcome == EarlyExit ==>
        j <= r.epoch && !Epoch(env.shuffle(r.epoch, examples), b, env.stopBefore, r.epoch).stopped &&
        ShouldExit(env.observed(r.epoch)) && r.flag == env.observed(r.epoch).shouldStop
    decreases if limit < j then 0 else limit - j + 1
  {
    if j <= limit {
      var e := Epoch(env.shuffle(j, examples), b, env.stopBefore, j);
      var it := if e.fullBatches > 0 then e.fullBatches else iteration;
      if !e.stopped && !ShouldExit(env.observed(j)) {
        DriveOutcome(j + 1, limit, b, env, examples, j, it);
      }
    }
  }

  /**
   * When the flag is never seen set and no epoch meets the early-exit test, every
   * epoch from `j` to `limit` runs, and each trains all the examples: its calls'
   * rows, concatenated, are that epoch's shuffle.
   */
  lemma {:induction false} DriveUninterrupted(j: nat, limit: int, b: nat, env: Environment, examples: seq<Example>,
                                              epoch: int, iteration: int)
    requires b >= 1
    requires forall e: nat, t: nat :: !env.stopBefore(e, t)
    requires forall e: nat :: !ShouldExit(env.observed(e))
    ensures var r := Drive(j, limit, b, env, examples, epoch, iteration);
      r.outcome == EpochLimitReached &&
      r.calls == EpochCalls(j, limit, b, env, examples)
    decreases if limit < j then 0 else limit - j + 1
  {
    if j <= limit {
      var s := env.shuffle(j, examples);
      var e := Epoch(s, b, env.stopBefore, j);
      assert StopIndex(env.stopBefore, j, 0, |s|) == |s|;
      var it := if e.fullBatches > 0 then e.fullBatches else iteration;
      DriveUninterrupted(j + 1, limit, b, env, examples, j, it);
    }
  }

  /** The calls of epochs `j` to `limit` when each runs to its end: each epoch's full batches and remainder. */
  function EpochCalls(j: nat, limit: int, b: nat, env: Environment, examples: seq<Example>): (cs: seq<TrainCall>)
    requires b >= 1
    ensures forall k :: 0 <= k < |cs| ==> j <= cs[k].epoch <= limit
    decreases if limit < j then 0 else limit - j + 1
  {
    if j > limit then []
    else
      var calls := Calls(j, EpochBatches(env.shuffle(j, examples), b));
      var rest := EpochCalls(j + 1, limit, b, env, examples);
      assert forall k :: 0 <= k < |calls + rest| ==>
        (calls + rest)[k] == if k < |calls| then calls[k] else rest[k - |calls|];
      calls + rest
  }

  /** The calls of one uninterrupted epoch, concatenated, are exactly the shuffled examples. */
  lemma EpochCallsCover(j: nat, b: nat, s: seq<Example>)
    requires b >= 1
    ensures var calls := Calls(j, EpochBatches(s, b));
      Flatten(seq(|calls|, k requires 0 <= k < |calls| => Zip(calls[k].data, calls[k].labels))) == s
  {
    var batches := EpochBatches(s, b);
    var calls := Calls(j, batches);
    var zipped := seq(|calls|, k requires 0 <= k < |calls| => Zip(calls[k].data, calls[k].labels));
    assert zipped == batches;
    EpochCovers(s, b);
  }
}
