/**
 * How one shuffled epoch is cut into mini-batches: examples are appended to a
 * pending batch, which is trained and emptied as soon as it holds the batch
 * limit; whatever is pending at the end of the epoch is trained as one more,
 * smaller batch.
 */
module Batching {
  import opened Collections

  /**
   * The size at which a pending batch is flushed. The pending batch is tested
   * with `size >= batchSize` right after an append, so it always holds at least
   * one example there, and a batch size below 1 acts as 1.
   */
  function BatchLimit(batchSize: int): (b: nat)
    ensures b >= 1 && b >= batchSize
    ensures batchSize >= 1 ==> b == batchSize
  {
    if batchSize <= 1 then 1 else batchSize
  }

  /** After an append, the flush test against `batchSize` is the test against the limit. */
  lemma FlushTest(batchSize: int, size: nat)
    requires size >= 1
    ensures size >= batchSize <==> size >= BatchLimit(batchSize)
  {
  }

  /** The full batches of `s`, front to back. */
  function FullBatches<T>(s: seq<T>, b: nat): (r: seq<seq<T>>)
    requires b >= 1
    ensures |s| >= b <==> r != []
    decreases |s|
  {
    if |s| < b then [] else [s[..b]] + FullBatches(s[b..], b)
  }

  /** What is left over after the full batches. */
  function Remainder<T>(s: seq<T>, b: nat): (r: seq<T>)
    requires b >= 1
    ensures |r| <= |s| && |r| < b
    decreases |s|
  {
    if |s| < b then s else Remainder(s[b..], b)
  }

  /** Every batch trained in an epoch that is not stopped: the full ones, then the remainder if it is not empty. */
  function EpochBatches<T>(s: seq<T>, b: nat): (r: seq<seq<T>>)
    requires b >= 1
    ensures s == [] <==> r == []
  {
    FullBatches(s, b) + (if Remainder(s, b) == [] then [] else [Remainder(s, b)])
  }

  /** Full batches hold exactly `b` elements; the remainder fewer than `b`. */
  lemma {:induction false} BatchSizes<T>(s: seq<T>, b: nat)
    requires b >= 1
    ensures forall k :: 0 <= k < |FullBatches(s, b)| ==> |FullBatches(s, b)[k]| == b
    ensures |Remainder(s, b)| < b
    decreases |s|
  {
    if |s| >= b {
      BatchSizes(s[b..], b);
      var rest := FullBatches(s[b..], b);
      assert FullBatches(s, b) == [s[..b]] + rest;
      forall k | 0 <= k < |FullBatches(s, b)|
        ensures |FullBatches(s, b)[k]| == b
      {
        if k > 0 {
          assert FullBatches(s, b)[k] == rest[k - 1];
        }
      }
    }
  }

  /** The full batches followed by the remainder are the sequence again: nothing dropped, repeated or reordered. */
  lemma {:induction false} BatchesCover<T>(s: seq<T>, b: nat)
    requires b >= 1
    ensures Flatten(FullBatches(s, b)) + Remainder(s, b) == s
    decreases |s|
  {
    if |s| >= b {
      BatchesCover(s[b..], b);
      var rest := FullBatches(s[b..], b);
      assert ([s[..b]] + rest)[1..] == rest;
      assert Flatten([s[..b]] + rest) == s[..b] + Flatten(rest);
      assert s[..b] + s[b..] == s;
    }
  }

  /** There are |s| / b full batches and the remainder holds |s| % b elements. */
  lemma {:induction false} BatchCount<T>(s: seq<T>, b: nat)
    requires b >= 1
    ensures |FullBatches(s, b)| == |s| / b
    ensures |Remainder(s, b)| == |s| % b
    decreases |s|
  {
    if |s| >= b {
      BatchCount(s[b..], b);
      var q, r := (|s| - b) / b, (|s| - b) % b;
      assert |s| == (q + 1) * b + r;
      DivMod(|s|, b, q + 1, r);
    } else {
      DivMod(|s|, b, 0, |s|);
    }
  }

  /**
   * The split is unique: any list of b-sized batches followed by fewer than b
   * pending elements that concatenate to `s` are the full batches and the
   * remainder of `s`.
   */
  lemma {:induction false} BatchesUnique<T>(s: seq<T>, b: nat, batches: seq<seq<T>>, pending: seq<T>)
    requires b >= 1
    requires forall k :: 0 <= k < |batches| ==> |batches[k]| == b
    requires |pending| < b
    requires Flatten(batches) + pending == s
    ensures batches == FullBatches(s, b) && pending == Remainder(s, b)
    decreases |batches|
  {
    if batches == [] {
      assert s == pending;
    } else {
      var first, rest := batches[0], batches[1..];
      assert Flatten(batches) == first + Flatten(rest);
      assert s == first + (Flatten(rest) + pending);
      assert |s| >= b;
      assert s[..b] == first;
      assert s[b..] == Flatten(rest) + pending;
      BatchesUnique(s[b..], b, rest, pending);
      assert batches == [first] + rest;
    }
  }

  /**
   * After the first `t` elements: the batches flushed so far, each of `b`
   * elements, and the fewer than `b` pending elements, together the prefix.
   */
  ghost predicate Batched<T>(s: seq<T>, t: nat, b: nat, done: seq<seq<T>>, pending: seq<T>)
  {
    b >= 1 && t <= |s| && Flatten(done) + pending == s[..t] &&
    (forall k :: 0 <= k < |done| ==> |done[k]| == b) && |pending| < b
  }

  /**
   * Appending the next element keeps the split: the pending batch either stays
   * below `b` or reaches `b` exactly and is flushed.
   */
  lemma BatchedStep<T>(s: seq<T>, t: nat, b: nat, done: seq<seq<T>>, pending: seq<T>)
    requires Batched(s, t, b, done, pending) && t < |s|
    ensures var p := pending + [s[t]];
      |p| <= b &&
      (|p| == b ==> Batched(s, t + 1, b, done + [p], [])) &&
      (|p| < b ==> Batched(s, t + 1, b, done, p))
  {
    var p := pending + [s[t]];
    assert s[..t + 1] == s[..t] + [s[t]];
    FlattenAppend(done, [p]);
    assert Flatten([p]) == p by {
      assert [p][1..] == [];
    }
    assert Flatten(done + [p]) + [] == s[..t + 1];
  }

  /** At the end of the sequence the split is the full batches and the remainder. */
  lemma BatchedEnd<T>(s: seq<T>, b: nat, done: seq<seq<T>>, pending: seq<T>)
    requires Batched(s, |s|, b, done, pending)
    ensures done == FullBatches(s, b) && pending == Remainder(s, b)
    ensures EpochBatches(s, b) == done + (if pending == [] then [] else [pending])
  {
    assert s[..|s|] == s;
    BatchesUnique(s, b, done, pending);
  }

  /** Part way, the split is that of the prefix. */
  lemma BatchedPrefix<T>(s: seq<T>, t: nat, b: nat, done: seq<seq<T>>, pending: seq<T>)
    requires Batched(s, t, b, done, pending)
    ensures done == FullBatches(s[..t], b) && pending == Remainder(s[..t], b)
  {
    BatchesUnique(s[..t], b, done, pending);
  }

  /** An epoch that is not stopped trains every example once, in the shuffled order, in non-empty batches of at most `b`. */
  lemma EpochCovers<T>(s: seq<T>, b: nat)
    requires b >= 1
    ensures Flatten(EpochBatches(s, b)) == s
    ensures forall k :: 0 <= k < |EpochBatches(s, b)| ==> 0 < |EpochBatches(s, b)[k]| <= b
    ensures forall k :: 0 <= k < |EpochBatches(s, b)| - 1 ==> |EpochBatches(s, b)[k]| == b
    ensures |EpochBatches(s, b)| == |s| / b + (if |s| % b == 0 then 0 else 1)
  {
    var full, rem := FullBatches(s, b), Remainder(s, b);
    BatchesCover(s, b);
    BatchSizes(s, b);
    BatchCount(s, b);
    var all := EpochBatches(s, b);
    if rem == [] {
      assert all == full;
      assert Flatten(full) == s;
    } else {
      FlattenAppend(full, [rem]);
      assert Flatten([rem]) == rem by {
        assert [rem][1..] == [];
      }
    }
    forall k | 0 <= k < |all|
      ensures 0 < |all[k]| <= b
    {
      if k < |full| {
        assert all[k] == full[k];
      }
    }
  }

  /** The multiset of trained examples of an unstopped epoch is that of the shuffled sequence. */
  lemma EpochIsPermutation<T>(s: seq<T>, b: nat, examples: seq<T>)
    requires b >= 1 && multiset(s) == multiset(examples)
    ensures multiset(Flatten(EpochBatches(s, b))) == multiset(examples)
  {
    EpochCovers(s, b);
  }
}
