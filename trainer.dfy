/**
 * `GANTrainer`: the configuration its constructor derives, and the integer
 * bookkeeping of its `train`, `sample` and `birds_eval` loops. Networks,
 * losses, noise and images are abstract; what is kept is which batches are
 * formed, which events are produced and which files are written.
 */
module Trainer {
  import opened Wrappers
  import opened GpuConfig
  import opened SavePath
  import opened NetworkLoader
  import opened TrainSchedule
  import opened SampleSchedule

  class GANTrainer {
    const maxEpoch: int
    const snapshotInterval: int
    const netG: string
    const netD: string
    const stage1G: string
    const lrDecayStep: int
    const trainFlag: bool
    const gpus: seq<int>
    /** The per-device batch size times the number of devices. */
    const batchSize: int
    /** The device `torch.cuda.set_device` selects: the first listed one. */
    const device: int
    var generatorLr: real
    var discriminatorLr: real

    /**
     * `__init__`. A `gpuId` piece that is not an integer makes Python's `int`
     * raise; `DeviceSetup` models that error and callers must avoid it.
     */
    constructor (maxEpoch: int, snapshotInterval: int, gpuId: string, batchSize: int,
                 trainFlag: bool, netG: string, netD: string, stage1G: string,
                 generatorLr: real, discriminatorLr: real, lrDecayEpoch: int)
      requires DeviceSetup(gpuId, batchSize).Ok?
      ensures this.maxEpoch == maxEpoch && this.snapshotInterval == snapshotInterval
      ensures this.netG == netG && this.netD == netD && this.stage1G == stage1G
      ensures this.lrDecayStep == lrDecayEpoch && this.trainFlag == trainFlag
      ensures this.generatorLr == generatorLr && this.discriminatorLr == discriminatorLr
      ensures this.gpus == DeviceSetup(gpuId, batchSize).value.gpus
      ensures |this.gpus| == |Split(gpuId)|
      ensures this.batchSize == batchSize * |this.gpus|
      ensures this.device == this.gpus[0]
    {
      var config := DeviceSetup(gpuId, batchSize).value;
      this.maxEpoch := maxEpoch;
      this.snapshotInterval := snapshotInterval;
      this.netG := netG;
      this.netD := netD;
      this.stage1G := stage1G;
      this.lrDecayStep := lrDecayEpoch;
      this.trainFlag := trainFlag;
      this.generatorLr := generatorLr;
      this.discriminatorLr := discriminatorLr;
      this.gpus := config.gpus;
      this.batchSize := config.batchSize;
      this.device := config.device;
    }

    /**
     * `train` over a data loader that yields `numBatches` batches per epoch.
     * The trace and the final learning rates are those of `TrainOutcome`; the
     * optimisers' parameter groups are set to the same rates at each halving.
     */
    method Train(numBatches: nat, stage: int) returns (status: TrainStatus, trace: seq<Event>)
      requires trainFlag
      modifies this
      ensures var run := TrainOutcome(stage, netG, stage1G, netD, maxEpoch, numBatches, lrDecayStep, snapshotInterval);
        && status == run.status && trace == run.trace
        && generatorLr == Decayed(old(generatorLr), run.halvings)
        && discriminatorLr == Decayed(old(discriminatorLr), run.halvings)
    {
      if stage != 1 {
        var loaded := LoadStageII(netG, stage1G, netD);
        if loaded.None? {
          return NoGenerator, [];
        }
      }
      var epochs := Epochs(maxEpoch);
      var count := 0;
      var epoch := 0;
      trace := [];
      while epoch < epochs
        invariant 0 <= epoch <= epochs
        invariant epoch > 0 ==> lrDecayStep != 0 && snapshotInterval != 0 && numBatches > 0
        invariant trace == EpochsTrace(epoch, numBatches, lrDecayStep, snapshotInterval)
        invariant count == epoch * numBatches
        invariant generatorLr == Decayed(old(generatorLr), Halvings(epoch, lrDecayStep))
        invariant discriminatorLr == Decayed(old(discriminatorLr), Halvings(epoch, lrDecayStep))
      {
        if lrDecayStep == 0 {
          // `epoch % self.lr_decay_step` raises ZeroDivisionError
          return ZeroDecayStep, trace;
        }
        var before := trace;
        ghost var decayPart: seq<Event> := if DecayEpoch(epoch, lrDecayStep) then [LrHalved(epoch)] else [];
        if DecayEpoch(epoch, lrDecayStep) {
          generatorLr := generatorLr * 0.5;
          discriminatorLr := discriminatorLr * 0.5;
          trace := trace + [LrHalved(epoch)];
        }
        var decayed := trace;
        assert decayed == before + decayPart;
        trace, count := RunBatches(trace, epoch, numBatches, count);
        if numBatches == 0 {
          // the progress line reads `i` and the losses, never bound
          return EmptyLoader, trace;
        }
        if snapshotInterval == 0 {
          // `epoch % self.snapshot_interval` raises ZeroDivisionError
          return ZeroSnapshotInterval, trace;
        }
        if epoch % snapshotInterval == 0 {
          trace := trace + [Snapshot(epoch)];
        }
        EpochStep(epoch, numBatches, lrDecayStep, snapshotInterval);
        epoch := epoch + 1;
      }
      trace := trace + [Snapshot(maxEpoch)];
      status := Completed;
    }

    /**
     * `sample` over the embedding rows of the sample file (one per caption).
     * Returns the output directory, the files written (name index to image),
     * the batch starts in order, and the final counter.
     */
    method Sample<E>(embeddings: seq<E>) returns (saveDir: string, files: map<nat, Image<E>>,
                                                   starts: seq<nat>, count: nat)
      requires batchSize > 0
      ensures saveDir == SaveDir(netG)
      ensures starts == BatchStarts(|embeddings|, BatchSizeFor(|embeddings|, batchSize), 0)
      ensures files == SampleRun(map[], embeddings, BatchSizeFor(|embeddings|, batchSize), 0, 0)
      ensures count == FinalCount(|embeddings|, BatchSizeFor(|embeddings|, batchSize), 0)
      ensures count == Min(|embeddings|, CapEnd(BatchSizeFor(|embeddings|, batchSize)))
      ensures forall k :: 0 <= k < |starts| ==>
        starts[k] + BatchSizeFor(|embeddings|, batchSize) <= |embeddings|
      ensures forall i :: i in files <==> 0 <= i < count
      ensures forall i :: i in files ==> files[i].source == embeddings[i]
      ensures forall i :: i in files ==> i < SAMPLE_CAP + BatchSizeFor(|embeddings|, batchSize)
    {
      saveDir := SaveDir(netG);
      var b := BatchSizeFor(|embeddings|, batchSize);
      files, starts, count := SampleBatches(embeddings, b);
      SampleCoverage(embeddings, b);
    }

    /**
     * `birds_eval`'s loop over the data batches (their embedding rows): each
     * batch writes files `count .. count + batch_size - 1` from its rows; a
     * batch with fewer rows raises IndexError at its first missing row.
     */
    method BirdsEval<E>(items: seq<seq<E>>) returns (files: map<int, Image<E>>, count: int,
                                                    shortBatch: Option<nat>)
      ensures EvalResult(files, count, shortBatch) == EvalRun(items, batchSize, map[], 0, 0)
      ensures batchSize > 0 && (forall k :: 0 <= k < |items| ==> |items[k]| >= batchSize) ==>
        && shortBatch == None
        && count == |items| * batchSize
        && (forall j :: j in files <==> 0 <= j < |items| * batchSize)
    {
      count := 0;
      files := map[];
      shortBatch := None;
      var k := 0;
      while k < |items|
        invariant 0 <= k <= |items|
        invariant EvalRun(items, batchSize, files, count, k) == EvalRun(items, batchSize, map[], 0, 0)
      {
        var complete;
        files, complete := WriteRows(files, items[k], count, batchSize, k);
        if !complete {
          // `fake_imgs[i]` raises IndexError
          shortBatch := Some(k);
          return;
        }
        count := count + batchSize;
        k := k + 1;
      }
      if batchSize > 0 && (forall m :: 0 <= m < |items| ==> |items[m]| >= batchSize) {
        assert 0 * batchSize == 0;
        EvalFullBatches(items, batchSize, map[], 0);
      }
    }
  }

  /** The batch loop of one `train` epoch: one global step per batch, metrics every 100th batch. */
  method RunBatches(trace: seq<Event>, epoch: nat, numBatches: nat, count: int)
    returns (extended: seq<Event>, counted: int)
    requires count == epoch * numBatches
    ensures extended == trace + BatchEvents(epoch, numBatches, numBatches)
    ensures counted == count + numBatches
  {
    extended := trace;
    counted := count;
    var i := 0;
    while i < numBatches
      invariant 0 <= i <= numBatches
      invariant extended == trace + BatchEvents(epoch, numBatches, i)
      invariant counted == count + i
    {
      counted := counted + 1;
      if i % METRIC_PERIOD == 0 {
        extended := extended + [Metrics(epoch, counted)];
      }
      i := i + 1;
    }
  }

  /**
   * `sample`'s batch loop with the batch size `b` it has settled on: batches
   * of `b` rows from counter 0, the last one clamped to end at the last row,
   * until every row is covered or the counter passes the cap.
   */
  method SampleBatches<E>(embeddings: seq<E>, b: nat) returns (files: map<nat, Image<E>>,
                                                             starts: seq<nat>, count: nat)
    requires SampleBatch(|embeddings|, b)
    ensures starts == BatchStarts(|embeddings|, b, 0)
    ensures files == SampleRun(map[], embeddings, b, 0, 0)
    ensures count == FinalCount(|embeddings|, b, 0)
  {
    var n := |embeddings|;
    count := 0;
    files := map[];
    starts := [];
    var batch := 0;
    while count < n
      invariant count <= n
      invariant starts + BatchStarts(n, b, count) == BatchStarts(n, b, 0)
      invariant SampleRun(files, embeddings, b, count, batch) == SampleRun(map[], embeddings, b, 0, 0)
      invariant FinalCount(n, b, count) == FinalCount(n, b, 0)
      decreases n - count
    {
      if count > SAMPLE_CAP {
        break;
      }
      ghost var start := ClampedStart(n, b, count);
      var iend := count + b;
      if iend > n {
        iend := n;
        count := n - b;
      }
      assert count == start && iend == count + b;
      files := WriteSampleBatch(files, embeddings, count, b, batch);
      starts := starts + [count];
      count := count + b;
      batch := batch + 1;
    }
  }

  /** The write loop of one `sample` batch: file `start + i` gets the image of row `i` of the slice. */
  method WriteSampleBatch<E>(files: map<nat, Image<E>>, embeddings: seq<E>, start: nat, b: nat, batch: nat)
    returns (written: map<nat, Image<E>>)
    requires start + b <= |embeddings|
    ensures written == WriteBatch(files, embeddings, start, 0, b, batch)
  {
    var embeddingsBatch := embeddings[start..start + b];
    written := files;
    var i := 0;
    while i < b
      invariant 0 <= i <= b
      invariant WriteBatch(written, embeddings, start, i, b, batch) == WriteBatch(files, embeddings, start, 0, b, batch)
    {
      written := written[start + i := Image(embeddingsBatch[i], batch)];
      i := i + 1;
    }
  }

  /**
   * The write loop of one `birds_eval` batch: file `count + i` gets the image
   * of row `i`, for `i < b`; `complete` is false when the batch runs out of
   * rows first, after the rows it has are written.
   */
  method WriteRows<E>(files: map<int, Image<E>>, rows: seq<E>, count: int, b: int, batch: nat)
    returns (written: map<int, Image<E>>, complete: bool)
    ensures complete <==> b <= |rows|
    ensures complete ==> written == WriteRowsFrom(files, rows, count, 0, if b > 0 then b else 0, batch)
    ensures !complete ==> written == WriteRowsFrom(files, rows, count, 0, |rows|, batch)
  {
    ghost var n := if b > |rows| then |rows| else if b > 0 then b else 0;
    written := files;
    var i := 0;
    while i < b
      invariant 0 <= i <= n
      invariant WriteRowsFrom(written, rows, count, i, n, batch) == WriteRowsFrom(files, rows, count, 0, n, batch)
    {
      if i >= |rows| {
        return written, false;
      }
      written := written[count + i := Image(rows[i], batch)];
      i := i + 1;
    }
    complete := true;
  }
}
