/**
 * `send_stickers_in_batches`: the sticker files are sent in consecutive batches
 * of `batch_size`, each file with up to three attempts, and a shortfall report
 * is sent when fewer files than given went out.
 */
module Batches {
  import Retry

  /** What one attempt at sending one file came to. */
  datatype SendTry =
    | Delivered   // the file exists and `send_telegram_document` returned True
    | Refused     // the file exists but `send_telegram_document` returned False
    | Missing     // the file is absent or at most ten bytes long
    | Crashed     // the attempt raised

  const FileAttempts: nat := 3

  /** The outcomes of the (at most) three attempts at one file. */
  datatype FileTries = FileTries(first: SendTry, second: SendTry, third: SendTry)
  {
    function At(k: nat): SendTry
      requires k < FileAttempts
    {
      if k == 0 then first else if k == 1 then second else third
    }
  }

  /** Consecutive slices of `size` elements, the last one possibly shorter. */
  function Slices<T>(xs: seq<T>, size: nat): seq<seq<T>>
    requires size > 0
    decreases |xs|
  {
    if xs == [] then []
    else if |xs| <= size then [xs]
    else [xs[..size]] + Slices(xs[size..], size)
  }

  function Flatten<T>(xss: seq<seq<T>>): seq<T>
  {
    if xss == [] then [] else xss[0] + Flatten(xss[1..])
  }

  /** The batches, put back together, are the files in their order. */
  lemma {:induction false} SlicesFlatten<T>(xs: seq<T>, size: nat)
    requires size > 0
    ensures Flatten(Slices(xs, size)) == xs
    decreases |xs|
  {
    if |xs| > size {
      SlicesFlatten(xs[size..], size);
      assert xs[..size] + xs[size..] == xs;
    }
  }

  /**
   * Every batch but the last holds exactly `size` files, the last holds between
   * one and `size`, so there are `c` batches with `(c - 1) * size < total <= c * size`.
   */
  lemma {:induction false} SlicesShape<T>(xs: seq<T>, size: nat)
    requires size > 0
    ensures forall b :: 0 <= b < |Slices(xs, size)| - 1 ==> |Slices(xs, size)[b]| == size
    ensures xs != [] ==> 0 < |Slices(xs, size)[|Slices(xs, size)| - 1]| <= size
    ensures xs == [] <==> |Slices(xs, size)| == 0
    ensures (|Slices(xs, size)| - 1) * size < |xs| <= |Slices(xs, size)| * size || xs == []
    decreases |xs|
  {
    if |xs| > size {
      var rest := Slices(xs[size..], size);
      SlicesShape(xs[size..], size);
      assert Slices(xs, size) == [xs[..size]] + rest;
      assert |Slices(xs, size)| == |rest| + 1;
      assert (|rest| + 1) * size == |rest| * size + size;
      assert (|rest| - 1) * size + size == |rest| * size;
    }
  }

  lemma MulMono(a: int, b: int, d: int)
    requires d > 0 && a <= b
    ensures a * d <= b * d
  {
  }

  lemma DivUnique(x: int, d: int, q: int, r: int)
    requires d > 0 && 0 <= r < d && x == q * d + r
    ensures x / d == q
  {
    var q', r' := x / d, x % d;
    assert x == q' * d + r';
    assert (q + 1) * d == q * d + d;
    assert (q' + 1) * d == q' * d + d;
    if q' > q {
      MulMono(q + 1, q', d);
    }
    if q' < q {
      MulMono(q' + 1, q, d);
    }
  }

  /** The number of batches is `(total + batch_size - 1) // batch_size`, the count the progress messages show. */
  lemma SlicesCount<T>(xs: seq<T>, size: nat)
    requires size > 0
    ensures |Slices(xs, size)| == (|xs| + size - 1) / size
  {
    SlicesShape(xs, size);
    var c := |Slices(xs, size)|;
    if xs == [] {
      DivUnique(size - 1, size, 0, size - 1);
    } else {
      DivUnique(|xs| + size - 1, size, c, |xs| + size - 1 - c * size);
    }
  }

  /** Seven files in batches of five go out as a batch of five and a batch of two. */
  lemma SevenInBatchesOfFive<T>(xs: seq<T>)
    requires |xs| == 7
    ensures |Slices(xs, 5)| == 2 && |Slices(xs, 5)[0]| == 5 && |Slices(xs, 5)[1]| == 2
  {
    SlicesShape(xs, 5);
    assert Slices(xs, 5) == [xs[..5]] + Slices(xs[5..], 5);
    assert Slices(xs[5..], 5) == [xs[5..]];
  }

  /** Some attempt among the first three delivered the file. */
  predicate FileSent(tries: FileTries)
  {
    tries.first == Delivered || tries.second == Delivered || tries.third == Delivered
  }

  /** Backoff requested by the first `n` attempts: `2**k` after an attempt `k` that raised, except after the last. */
  function CrashBackoff(tries: FileTries, n: nat): seq<nat>
    requires n <= FileAttempts
  {
    if n == 0 then []
    else CrashBackoff(tries, n - 1) + (if tries.At(n - 1) == Crashed && n - 1 < FileAttempts - 1 then [Retry.Pow2(n - 1)] else [])
  }

  /** The per-file retry loop: stops at the first delivery, otherwise gives up after three attempts. */
  method SendFile(tries: FileTries) returns (sent: bool, attempts: nat, delays: seq<nat>)
    ensures sent <==> FileSent(tries)
    ensures 1 <= attempts <= FileAttempts
    ensures sent ==> tries.At(attempts - 1) == Delivered
    ensures forall k :: 0 <= k < attempts - 1 ==> tries.At(k) != Delivered
    ensures !sent ==> attempts == FileAttempts
    ensures delays == CrashBackoff(tries, attempts)
  {
    sent, attempts, delays := false, 0, [];
    while attempts < FileAttempts
      invariant 0 <= attempts <= FileAttempts
      invariant forall k :: 0 <= k < attempts ==> tries.At(k) != Delivered
      invariant delays == CrashBackoff(tries, attempts)
    {
      var t := tries.At(attempts);
      if t == Delivered {
        sent, attempts := true, attempts + 1;
        return;
      }
      if t == Crashed && attempts < FileAttempts - 1 {
        delays := delays + [Retry.Pow2(attempts)];
      }
      attempts := attempts + 1;
    }
  }

  /** The files among the first `n` that were not sent after their attempts, in order. */
  function UnsentUpTo(files: seq<string>, tries: seq<FileTries>, n: nat): (r: seq<string>)
    requires |files| == |tries| && n <= |files|
    ensures |r| <= n
  {
    if n == 0 then []
    else UnsentUpTo(files, tries, n - 1) + (if FileSent(tries[n - 1]) then [] else [files[n - 1]])
  }

  /** The files reported as not sent, in order. */
  function Unsent(files: seq<string>, tries: seq<FileTries>): seq<string>
    requires |files| == |tries|
  {
    UnsentUpTo(files, tries, |files|)
  }

  function Sum(xs: seq<nat>): nat
  {
    if xs == [] then 0 else Sum(xs[..|xs| - 1]) + xs[|xs| - 1]
  }

  lemma SumAppend(xs: seq<nat>, x: nat)
    ensures Sum(xs + [x]) == Sum(xs) + x
  {
    assert (xs + [x])[..|xs|] == xs;
  }

  /** When every file goes out, nothing is reported unsent. */
  lemma {:induction false} UnsentNone(files: seq<string>, tries: seq<FileTries>, n: nat)
    requires |files| == |tries| && n <= |files|
    requires forall i :: 0 <= i < n ==> FileSent(tries[i])
    ensures UnsentUpTo(files, tries, n) == []
  {
    if n > 0 {
      UnsentNone(files, tries, n - 1);
    }
  }

  /** A file that failed all its attempts is reported unsent, after the earlier failures. */
  lemma UnsentFailure(files: seq<string>, tries: seq<FileTries>, n: nat)
    requires |files| == |tries| && n < |files| && !FileSent(tries[n])
    ensures UnsentUpTo(files, tries, n + 1) == UnsentUpTo(files, tries, n) + [files[n]]
  {
  }

  /** No batch reports more files sent than it holds. */
  predicate CountsWithin(batchSent: seq<nat>, batches: seq<seq<string>>)
  {
    |batchSent| == |batches| && forall b :: 0 <= b < |batches| ==> batchSent[b] <= |batches[b]|
  }

  lemma CountsWithinAppend(batchSent: seq<nat>, batches: seq<seq<string>>, n: nat, batch: seq<string>)
    requires CountsWithin(batchSent, batches) && n <= |batch|
    ensures CountsWithin(batchSent + [n], batches + [batch])
  {
  }

  /** One batch, the files `lo .. hi - 1`: each file in turn gets its own attempts. */
  method SendBatch(files: seq<string>, tries: seq<FileTries>, lo: nat, hi: nat) returns (batchCount: nat, missed: seq<string>)
    requires |tries| == |files| && lo <= hi <= |files|
    ensures UnsentUpTo(files, tries, hi) == UnsentUpTo(files, tries, lo) + missed
    ensures batchCount + |missed| == hi - lo
  {
    batchCount, missed := 0, [];
    var j := lo;
    while j < hi
      invariant lo <= j <= hi
      invariant UnsentUpTo(files, tries, j) == UnsentUpTo(files, tries, lo) + missed
      invariant batchCount + |missed| == j - lo
    {
      var sent, _, _ := SendFile(tries[j]);
      if sent {
        batchCount := batchCount + 1;
      } else {
        missed := missed + [files[j]];
      }
      j := j + 1;
    }
  }

  lemma SlicesStep<T>(xs: seq<T>, size: nat, i: nat, end: nat)
    requires size > 0 && i < |xs| && end == (if i + size <= |xs| then i + size else |xs|)
    ensures Slices(xs[i..], size) == [xs[i..end]] + Slices(xs[end..], size)
  {
    if |xs[i..]| <= size {
      assert xs[i..] == xs[i..end];
      assert xs[end..] == [];
    } else {
      assert xs[i..][..size] == xs[i..end];
      assert xs[i..][size..] == xs[end..];
    }
  }

  /** One step of the batch loop, for the slices: the batch `files[i..end]` joins those already sent. */
  lemma BatchSlicesStep<T>(xs: seq<T>, size: nat, i: nat, end: nat, done: seq<seq<T>>)
    requires size > 0 && i < |xs| && end == (if i + size <= |xs| then i + size else |xs|)
    requires done + Slices(xs[i..], size) == Slices(xs, size)
    ensures (done + [xs[i..end]]) + Slices(xs[end..], size) == Slices(xs, size)
  {
    SlicesStep(xs, size, i, end);
    assert (done + [xs[i..end]]) + Slices(xs[end..], size) == done + ([xs[i..end]] + Slices(xs[end..], size));
  }

  /**
   * `send_stickers_in_batches`: `batches` are the slices sent in turn,
   * `batchSent[b]` the files of batch `b` that went out, `unsent` the files
   * reported as not sent, and `shortfall` whether the final warning was sent.
   */
  method SendStickersInBatches(files: seq<string>, batchSize: nat, tries: seq<FileTries>)
    returns (sentCount: nat, batches: seq<seq<string>>, batchSent: seq<nat>, unsent: seq<string>, shortfall: bool)
    requires batchSize > 0
    requires |tries| == |files|
    ensures batches == Slices(files, batchSize)
    ensures unsent == Unsent(files, tries)
    ensures sentCount == |files| - |unsent| && sentCount <= |files|
    ensures CountsWithin(batchSent, batches) && Sum(batchSent) == sentCount
    ensures shortfall <==> sentCount != |files|
  {
    sentCount, batches, batchSent, unsent, shortfall := 0, [], [], [], false;
    var total := |files|;
    if total == 0 {
      return;
    }
    var i := 0;
    while i < total
      invariant 0 <= i <= total
      invariant batches + Slices(files[i..], batchSize) == Slices(files, batchSize)
      invariant unsent == UnsentUpTo(files, tries, i)
      invariant sentCount + |unsent| == i
      invariant CountsWithin(batchSent, batches) && Sum(batchSent) == sentCount
    {
      var end := if i + batchSize <= total then i + batchSize else total;
      var batch := files[i..end];
      var batchCount, missed := SendBatch(files, tries, i, end);
      BatchSlicesStep(files, batchSize, i, end, batches);
      SumAppend(batchSent, batchCount);
      CountsWithinAppend(batchSent, batches, batchCount, batch);
      sentCount := sentCount + batchCount;
      unsent := unsent + missed;
      batches := batches + [batch];
      batchSent := batchSent + [batchCount];
      i := end;
    }
    shortfall := sentCount != total;
  }

  /**
   * The scenario of seven files in batches of five where only the third file
   * fails all its attempts: one file is reported unsent, namely the third.
   */
  lemma ThirdFileFails(files: seq<string>, tries: seq<FileTries>)
    requires |files| == 7 && |tries| == 7
    requires forall i :: 0 <= i < 7 && i != 2 ==> tries[i].first == Delivered
    requires !FileSent(tries[2])
    ensures Unsent(files, tries) == [files[2]]
  {
    UnsentNone(files, tries, 2);
    UnsentFailure(files, tries, 2);
    assert UnsentUpTo(files, tries, 4) == [files[2]];
    assert UnsentUpTo(files, tries, 6) == [files[2]];
  }
}
