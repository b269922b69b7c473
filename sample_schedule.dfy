/**
 * The batch schedule of `GANTrainer.sample` and `GANTrainer.birds_eval`, with
 * the generator abstracted away: which embedding rows go into each batch and
 * which image file each generated image is written to.
 *
 * `sample` visits batch starts 0, b, 2b, ... while the start is below the
 * number of embeddings and at most 3000; a batch that would run past the end
 * is pulled back to end exactly at the end, so every batch is full-size and
 * the last one may overlap the one before. `birds_eval` strides by the
 * configured batch size over the batches its data source yields, with no cap
 * and no clamp.
 */
module SampleSchedule {
  import opened Wrappers
  import opened Arith

  /** `sample` stops before any batch whose start exceeds this. */
  const SAMPLE_CAP := 3000

  /**
   * The image written to a file: made by the generator from embedding row
   * `source` in the `batch`-th batch (each batch draws its own noise).
   */
  datatype Image<E> = Image(source: E, batch: nat)

  function Min(a: int, b: int): int {
    if a <= b then a else b
  }

  /** The batch size `sample` uses on `n` embeddings for a configured size `b > 0`: `np.minimum(n, b)`. */
  predicate SampleBatch(n: nat, b: nat) {
    b <= n && (b == 0 ==> n == 0)
  }

  /**
   * The first value above the cap among `count, count + b, count + 2b, ...`:
   * where `sample`'s counter, unclamped, first exceeds the cap.
   */
  function CapEndFrom(b: nat, count: nat): (f: nat)
    requires b > 0
    ensures f >= count && f > SAMPLE_CAP
    decreases SAMPLE_CAP + 1 - count
  {
    if count > SAMPLE_CAP then count else CapEndFrom(b, count + b)
  }

  /** Where `sample` stops when there are enough embeddings: the first multiple of `b` above the cap. */
  function CapEnd(b: nat): nat
  {
    if b == 0 then 0 else CapEndFrom(b, 0)
  }

  /** `np.minimum(num_embeddings, self.batch_size)` for a positive configured batch size. */
  function BatchSizeFor(n: nat, configured: int): (b: nat)
    requires configured > 0
    ensures SampleBatch(n, b) && b == Min(n, configured)
  {
    if n <= configured then n else configured
  }

  /** The start of the batch `sample` takes when its counter is at `count`: clamped to end at `n`. */
  function ClampedStart(n: nat, b: nat, count: nat): (s: nat)
    requires SampleBatch(n, b) && count < n
    ensures s + b <= n && s <= count
    ensures s + b > count
  {
    if count + b > n then n - b else count
  }

  /** The batch starts of `sample` from counter `count` on. */
  function BatchStarts(n: nat, b: nat, count: nat): (starts: seq<nat>)
    requires SampleBatch(n, b)
    ensures forall k :: 0 <= k < |starts| ==> starts[k] + b <= n && starts[k] <= SAMPLE_CAP
    decreases n - count
  {
    if count >= n || count > SAMPLE_CAP then []
    else
      var s := ClampedStart(n, b, count);
      [s] + BatchStarts(n, b, s + b)
  }

  /**
   * The shape of `sample`'s batches from counter `count` on: batch `i` starts at
   * `count + i * b` while that batch fits, and a batch that would run past the
   * end is the last one and is pulled back to end exactly at `n`.
   */
  lemma {:induction false} BatchStartsShape(n: nat, b: nat, count: nat)
    requires SampleBatch(n, b) && b > 0
    ensures forall i :: 0 <= i < |BatchStarts(n, b, count)| ==>
      || (count + i * b + b <= n && BatchStarts(n, b, count)[i] == count + i * b)
      || (count + i * b + b > n && BatchStarts(n, b, count)[i] + b == n && i == |BatchStarts(n, b, count)| - 1)
    decreases n - count
  {
    if count < n && count <= SAMPLE_CAP && count + b <= n {
      BatchStartsShape(n, b, count + b);
      forall i | 1 <= i < |BatchStarts(n, b, count)| ensures (count + b) + (i - 1) * b == count + i * b {
        assert (i - 1) * b + b == i * b;
      }
    }
  }

  /** Where `sample`'s counter ends when started at `count`. */
  function FinalCount(n: nat, b: nat, count: nat): nat
    requires SampleBatch(n, b)
    decreases n - count
  {
    if count >= n || count > SAMPLE_CAP then count
    else FinalCount(n, b, ClampedStart(n, b, count) + b)
  }

  /**
   * `sample`'s write loop for one batch, as it runs: over the files already in
   * the output directory, write file `start + j` for `j = i .. b-1` with the
   * image of row `start + j`; a write replaces an earlier file of that name.
   */
  function WriteBatch<E>(files: map<nat, Image<E>>, embeddings: seq<E>, start: nat, i: nat, b: nat,
                         batch: nat): map<nat, Image<E>>
    requires start + b <= |embeddings|
    decreases b - i
  {
    if i >= b then files
    else WriteBatch(files[start + i := Image(embeddings[start + i], batch)], embeddings, start, i + 1, b, batch)
  }

  /**
   * `sample`'s batch loop, as it runs from counter `count` with `batch` batches
   * already generated, over the files already written.
   */
  function SampleRun<E>(files: map<nat, Image<E>>, embeddings: seq<E>, b: nat, count: nat, batch: nat): map<nat, Image<E>>
    requires SampleBatch(|embeddings|, b)
    decreases |embeddings| - count
  {
    if count >= |embeddings| || count > SAMPLE_CAP then files
    else
      var s := ClampedStart(|embeddings|, b, count);
      SampleRun(WriteBatch(files, embeddings, s, 0, b, batch), embeddings, b, s + b, batch + 1)
  }

  // ---------------------------------------------------------------------------
  // Properties of the sampling schedule
  // ---------------------------------------------------------------------------

  /** The cap end is at most one batch above the cap when the walk starts within one batch of it. */
  lemma {:induction false} CapEndFromBound(b: nat, count: nat)
    requires b > 0 && count <= SAMPLE_CAP + b
    ensures CapEndFrom(b, count) <= SAMPLE_CAP + b
    decreases SAMPLE_CAP + 1 - count
  {
    if count <= SAMPLE_CAP {
      CapEndFromBound(b, count + b);
    }
  }

  /** From a multiple of `b` no further than `(3000 / b + 1) * b`, the walk ends exactly there. */
  lemma {:induction false} CapEndFromMultiple(b: nat, k: nat)
    requires b > 0 && k <= SAMPLE_CAP / b + 1
    ensures CapEndFrom(b, k * b) == (SAMPLE_CAP / b + 1) * b
    decreases SAMPLE_CAP / b + 1 - k
  {
    var q := SAMPLE_CAP / b;
    assert SAMPLE_CAP == q * b + SAMPLE_CAP % b;
    assert (q + 1) * b == q * b + b;
    if k * b > SAMPLE_CAP {
      // q * b < k * b forces q < k, so k == q + 1
      MulCancelLess(q, k, b);
    } else {
      // k * b < (q + 1) * b forces k <= q
      MulCancelLess(k, q + 1, b);
      assert k * b + b == (k + 1) * b;
      CapEndFromMultiple(b, k + 1);
    }
  }

  /** The cap end is `(3000 / b + 1) * b`: the least multiple of `b` above 3000. */
  lemma CapEndValue(b: nat)
    requires b > 0
    ensures CapEnd(b) == (SAMPLE_CAP / b + 1) * b
    ensures SAMPLE_CAP < CapEnd(b) <= SAMPLE_CAP + b
  {
    assert 0 * b == 0;
    CapEndFromMultiple(b, 0);
    CapEndFromBound(b, 0);
  }

  /** From any counter within the embeddings, `sample` ends at `min(n, cap end from there)`. */
  lemma {:induction false} FinalCountFrom(n: nat, b: nat, count: nat)
    requires SampleBatch(n, b) && b > 0 && count <= n
    ensures FinalCount(n, b, count) == Min(n, CapEndFrom(b, count))
    decreases n - count
  {
    if count < n && count <= SAMPLE_CAP && count + b <= n {
      FinalCountFrom(n, b, count + b);
    }
  }

  /**
   * One batch adds exactly the names `start + i .. start + b - 1`, each holding
   * the image of its own row tagged with this batch; every other file is kept.
   */
  lemma {:induction false} WriteBatchFiles<E>(files: map<nat, Image<E>>, embeddings: seq<E>, start: nat, i: nat,
                                              b: nat, batch: nat)
    requires start + b <= |embeddings| && i <= b
    ensures forall j :: j in WriteBatch(files, embeddings, start, i, b, batch) <==>
      j in files || start + i <= j < start + b
    ensures forall j :: j in WriteBatch(files, embeddings, start, i, b, batch) ==>
      WriteBatch(files, embeddings, start, i, b, batch)[j]
        == if start + i <= j < start + b then Image(embeddings[j], batch) else files[j]
    decreases b - i
  {
    if i < b {
      WriteBatchFiles(files[start + i := Image(embeddings[start + i], batch)], embeddings, start, i + 1, b, batch);
    }
  }

  /**
   * From a counter `count` with every earlier name already written, `sample`
   * adds exactly the names from `count` up to `min(n, cap end from there)`.
   */
  lemma {:induction false} SampleRunNames<E>(files: map<nat, Image<E>>, embeddings: seq<E>, b: nat, count: nat,
                                             batch: nat)
    requires SampleBatch(|embeddings|, b) && b > 0 && count <= |embeddings|
    requires forall j :: 0 <= j < count ==> j in files
    ensures forall j :: j in SampleRun(files, embeddings, b, count, batch) <==>
      j in files || count <= j < Min(|embeddings|, CapEndFrom(b, count))
    decreases |embeddings| - count
  {
    var n := |embeddings|;
    if count < n && count <= SAMPLE_CAP {
      var s := ClampedStart(n, b, count);
      WriteBatchFiles(files, embeddings, s, 0, b, batch);
      assert CapEndFrom(b, count) == CapEndFrom(b, count + b);
      if count + b <= n {
        SampleRunNames(WriteBatch(files, embeddings, s, 0, b, batch), embeddings, b, count + b, batch + 1);
      }
    }
  }

  /** Whatever `sample` writes to name `j` is an image of embedding row `j`. */
  lemma {:induction false} SampleRunSources<E>(files: map<nat, Image<E>>, embeddings: seq<E>, b: nat, count: nat,
                                               batch: nat)
    requires SampleBatch(|embeddings|, b)
    requires forall j :: j in files ==> j < |embeddings| && files[j].source == embeddings[j]
    ensures forall j :: j in SampleRun(files, embeddings, b, count, batch) ==>
      j < |embeddings| && SampleRun(files, embeddings, b, count, batch)[j].source == embeddings[j]
    decreases |embeddings| - count
  {
    var n := |embeddings|;
    if count < n && count <= SAMPLE_CAP {
      var s := ClampedStart(n, b, count);
      WriteBatchFiles(files, embeddings, s, 0, b, batch);
      SampleRunSources(WriteBatch(files, embeddings, s, 0, b, batch), embeddings, b, s + b, batch + 1);
    }
  }

  /**
   * Everything `sample` does on `n` embeddings with batch size `b`, from an
   * empty output directory: the counter ends at `min(n, cap end)`, the files
   * written are exactly `0 .. min(n, cap end) - 1`, file `i` holds an image of
   * row `i`, and no file name reaches `3000 + b`.
   */
  lemma SampleCoverage<E>(embeddings: seq<E>, b: nat)
    requires SampleBatch(|embeddings|, b)
    ensures FinalCount(|embeddings|, b, 0) == Min(|embeddings|, CapEnd(b))
    ensures forall i :: i in SampleRun(map[], embeddings, b, 0, 0) <==> 0 <= i < Min(|embeddings|, CapEnd(b))
    ensures forall i :: i in SampleRun(map[], embeddings, b, 0, 0) ==>
      SampleRun(map[], embeddings, b, 0, 0)[i].source == embeddings[i]
    ensures forall i :: i in SampleRun(map[], embeddings, b, 0, 0) ==> i < SAMPLE_CAP + b
  {
    SampleRunSources(map[], embeddings, b, 0, 0);
    if b > 0 {
      FinalCountFrom(|embeddings|, b, 0);
      SampleRunNames(map[], embeddings, b, 0, 0);
      CapEndValue(b);
    }
  }

  /**
   * When the number of embeddings is at most the cap end (in particular when it
   * is at most 3001) the cap never fires: every index `0 .. n-1` is written and
   * the counter ends at `n`.
   */
  lemma SampleWithoutCap<E>(embeddings: seq<E>, b: nat)
    requires SampleBatch(|embeddings|, b) && b > 0
    requires |embeddings| <= CapEnd(b)
    ensures FinalCount(|embeddings|, b, 0) == |embeddings|
    ensures forall i :: 0 <= i < |embeddings| ==> i in SampleRun(map[], embeddings, b, 0, 0)
  {
    SampleCoverage(embeddings, b);
  }

  /**
   * Ten embeddings in batches of four: the batches start at 0, 4 and 6 (the
   * third one is pulled back from 8), rows 6 and 7 are generated twice and the
   * later images are kept, and all ten files are written.
   */
  lemma TenEmbeddingsInFours<E>(embeddings: seq<E>)
    requires |embeddings| == 10
    ensures BatchStarts(10, 4, 0) == [0, 4, 6]
    ensures forall i :: i in SampleRun(map[], embeddings, 4, 0, 0) <==> 0 <= i < 10
    ensures SampleRun(map[], embeddings, 4, 0, 0)[4] == Image(embeddings[4], 1)
    ensures SampleRun(map[], embeddings, 4, 0, 0)[5] == Image(embeddings[5], 1)
    ensures SampleRun(map[], embeddings, 4, 0, 0)[6] == Image(embeddings[6], 2)
    ensures SampleRun(map[], embeddings, 4, 0, 0)[7] == Image(embeddings[7], 2)
  {
    TenEmbeddingsStarts();
    CapEndValue(4);
    SampleCoverage(embeddings, 4);
    TenEmbeddingsOverlap(embeddings);
  }

  lemma TenEmbeddingsOverlap<E>(embeddings: seq<E>)
    requires |embeddings| == 10
    ensures 4 in SampleRun(map[], embeddings, 4, 0, 0) && 5 in SampleRun(map[], embeddings, 4, 0, 0)
    ensures 6 in SampleRun(map[], embeddings, 4, 0, 0) && 7 in SampleRun(map[], embeddings, 4, 0, 0)
    ensures SampleRun(map[], embeddings, 4, 0, 0)[4] == Image(embeddings[4], 1)
    ensures SampleRun(map[], embeddings, 4, 0, 0)[5] == Image(embeddings[5], 1)
    ensures SampleRun(map[], embeddings, 4, 0, 0)[6] == Image(embeddings[6], 2)
    ensures SampleRun(map[], embeddings, 4, 0, 0)[7] == Image(embeddings[7], 2)
  {
    var f0 := WriteBatch(map[], embeddings, 0, 0, 4, 0);
    var f1 := WriteBatch(f0, embeddings, 4, 0, 4, 1);
    var f2 := WriteBatch(f1, embeddings, 6, 0, 4, 2);
    assert ClampedStart(10, 4, 0) == 0 && ClampedStart(10, 4, 4) == 4 && ClampedStart(10, 4, 8) == 6;
    assert SampleRun(f2, embeddings, 4, 10, 3) == f2;
    assert SampleRun(f1, embeddings, 4, 8, 2) == f2;
    assert SampleRun(f0, embeddings, 4, 4, 1) == f2;
    assert SampleRun(map[], embeddings, 4, 0, 0) == f2;
    WriteBatchFiles(f1, embeddings, 6, 0, 4, 2);
    WriteBatchFiles(f0, embeddings, 4, 0, 4, 1);
    assert f2[4] == f1[4] && f2[5] == f1[5];
  }

  lemma TenEmbeddingsStarts()
    ensures BatchStarts(10, 4, 0) == [0, 4, 6]
  {
    assert ClampedStart(10, 4, 8) == 6;
    assert BatchStarts(10, 4, 10) == [];
    assert BatchStarts(10, 4, 8) == [6];
    assert BatchStarts(10, 4, 4) == [4, 6];
  }

  /** Ten thousand embeddings in batches of four: the cap stops `sample` at 3004 files, 0 .. 3003. */
  lemma CapStopsSampling<E>(embeddings: seq<E>)
    requires |embeddings| == 10000
    ensures FinalCount(10000, 4, 0) == 3004
    ensures forall i :: i in SampleRun(map[], embeddings, 4, 0, 0) <==> 0 <= i < 3004
  {
    CapEndValue(4);
    SampleCoverage(embeddings, 4);
  }

  // ---------------------------------------------------------------------------
  // birds_eval: exact stride, no clamp, no cap
  // ---------------------------------------------------------------------------

  /**
   * What `birds_eval` leaves behind: the files written, the final counter, and
   * the index of the data batch with fewer rows than the batch size, at which
   * `fake_imgs[i]` raises IndexError, when there is one.
   */
  datatype EvalResult<E> = EvalResult(files: map<int, Image<E>>, count: int, shortBatch: Option<nat>)

  /** `birds_eval`'s write loop for one data batch, as it runs: file `count + j` gets row `j`, for `j = i .. n-1`. */
  function WriteRowsFrom<E>(files: map<int, Image<E>>, rows: seq<E>, count: int, i: nat, n: nat,
                            batch: nat): map<int, Image<E>>
    requires i <= n <= |rows|
    decreases n - i
  {
    if i == n then files
    else WriteRowsFrom(files[count + i := Image(rows[i], batch)], rows, count, i + 1, n, batch)
  }

  /**
   * `birds_eval`'s loop over the data batches `items[batch..]`, as it runs
   * with counter `count` over the files already written. A batch with fewer
   * rows than `b` has its rows written and then stops the run.
   */
  function EvalRun<E>(items: seq<seq<E>>, b: int, files: map<int, Image<E>>, count: int, batch: nat): EvalResult<E>
    requires batch <= |items|
    decreases |items| - batch
  {
    if batch == |items| then EvalResult(files, count, None)
    else
      var rows := items[batch];
      if b > |rows| then EvalResult(WriteRowsFrom(files, rows, count, 0, |rows|, batch), count, Some(batch))
      else EvalRun(items, b, WriteRowsFrom(files, rows, count, 0, if b > 0 then b else 0, batch), count + b, batch + 1)
  }

  /** One data batch adds exactly the names `count + i .. count + n - 1`, each holding its row; every other file is kept. */
  lemma {:induction false} WriteRowsFiles<E>(files: map<int, Image<E>>, rows: seq<E>, count: int, i: nat, n: nat,
                                             batch: nat)
    requires i <= n <= |rows|
    ensures forall j :: j in WriteRowsFrom(files, rows, count, i, n, batch) <==> j in files || count + i <= j < count + n
    ensures forall j :: j in WriteRowsFrom(files, rows, count, i, n, batch) ==>
      WriteRowsFrom(files, rows, count, i, n, batch)[j]
        == if count + i <= j < count + n then Image(rows[j - count], batch) else files[j]
    decreases n - i
  {
    if i < n {
      WriteRowsFiles(files[count + i := Image(rows[i], batch)], rows, count, i + 1, n, batch);
    }
  }

  /**
   * When every data batch from `batch` on has at least `b > 0` rows,
   * `birds_eval` runs to the end with the counter at `b` times the number of
   * batches, adds exactly the names `batch*b .. b*|items| - 1`, file `j` holds
   * row `j % b` of data batch `j / b`, and every other file is kept.
   */
  lemma {:induction false} EvalFullBatches<E>(items: seq<seq<E>>, b: nat, files: map<int, Image<E>>, batch: nat)
    requires b > 0 && batch <= |items|
    requires forall k :: batch <= k < |items| ==> |items[k]| >= b
    ensures EvalRun(items, b, files, batch * b, batch).shortBatch == None
    ensures EvalRun(items, b, files, batch * b, batch).count == |items| * b
    ensures forall j :: j in EvalRun(items, b, files, batch * b, batch).files <==>
      j in files || batch * b <= j < |items| * b
    ensures forall j :: batch * b <= j < |items| * b ==>
      && 0 <= j / b < |items| && j % b < |items[j / b]|
      && j in EvalRun(items, b, files, batch * b, batch).files
      && EvalRun(items, b, files, batch * b, batch).files[j] == Image(items[j / b][j % b], j / b)
    ensures forall j :: j in files && !(batch * b <= j < |items| * b) ==>
      j in EvalRun(items, b, files, batch * b, batch).files
      && EvalRun(items, b, files, batch * b, batch).files[j] == files[j]
    decreases |items| - batch
  {
    if batch < |items| {
      var next := WriteRowsFrom(files, items[batch], batch * b, 0, b, batch);
      WriteRowsFiles(files, items[batch], batch * b, 0, b, batch);
      assert batch * b + b == (batch + 1) * b;
      EvalFullBatches(items, b, next, batch + 1);
      assert (batch + 1) * b <= |items| * b by { MulMonotone(batch + 1, |items|, b); }
      forall j | batch * b <= j < batch * b + b
        ensures j / b == batch && j % b == j - batch * b
      {
        DivModUnique(j, b, batch, j - batch * b);
      }
    }
  }

  /**
   * A data batch `k` shorter than `b`, after full ones from `batch` on, stops
   * `birds_eval` with IndexError once that batch's rows are written: the
   * counter stays at `k*b` and the names added are `batch*b .. k*b + |items[k]| - 1`.
   */
  lemma {:induction false} EvalShortBatch<E>(items: seq<seq<E>>, b: nat, files: map<int, Image<E>>, batch: nat,
                                             k: nat)
    requires b > 0 && batch <= k < |items|
    requires forall m :: batch <= m < k ==> |items[m]| >= b
    requires |items[k]| < b
    ensures EvalRun(items, b, files, batch * b, batch).shortBatch == Some(k)
    ensures EvalRun(items, b, files, batch * b, batch).count == k * b
    ensures forall j :: j in EvalRun(items, b, files, batch * b, batch).files <==>
      j in files || batch * b <= j < k * b + |items[k]|
    decreases k - batch
  {
    if batch < k {
      var next := WriteRowsFrom(files, items[batch], batch * b, 0, b, batch);
      WriteRowsFiles(files, items[batch], batch * b, 0, b, batch);
      assert batch * b + b == (batch + 1) * b;
      EvalShortBatch(items, b, next, batch + 1, k);
      assert (batch + 1) * b <= k * b by { MulMonotone(batch + 1, k, b); }
    } else {
      WriteRowsFiles(files, items[batch], batch * b, 0, |items[batch]|, batch);
    }
  }
}
