/**
 * The integer schedule of `GANTrainer.train`, with networks, losses and the
 * optimiser step abstracted away: on which epochs both learning rates are
 * halved, at which global steps metrics and a fixed-noise image are emitted,
 * and at which epochs a checkpoint is written. A run is described by the trace
 * of these events in the order the loops produce them.
 */
module TrainSchedule {
  import opened Arith
  import opened Wrappers
  import opened NetworkLoader

  /** Emission happens on batches whose index within the epoch is a multiple of this. */
  const METRIC_PERIOD := 100

  datatype Event =
    | LrHalved(epoch: int)                // both learning rates halved at the start of `epoch`
    | Metrics(epoch: int, step: int)      // scalar summaries at global step `step`, image tagged `epoch`
    | Snapshot(epoch: int)                // `save_model(netG, netD, epoch, ...)`

  /** Number of epochs `range(maxEpoch)` runs. */
  function Epochs(maxEpoch: int): (e: nat)
    ensures maxEpoch > 0 ==> e == maxEpoch
    ensures maxEpoch <= 0 ==> e == 0
  {
    if maxEpoch > 0 then maxEpoch else 0
  }

  /** `epoch % lr_decay_step == 0 and epoch > 0` */
  predicate DecayEpoch(epoch: nat, decayStep: int)
    requires decayStep != 0
  {
    epoch % decayStep == 0 && epoch > 0
  }

  /** The events of the first `i` batches of `epoch`, where every epoch has `numBatches` batches. */
  function BatchEvents(epoch: nat, numBatches: nat, i: nat): seq<Event>
    requires i <= numBatches
  {
    if i == 0 then []
    else
      var emitted := if (i - 1) % METRIC_PERIOD == 0 then [Metrics(epoch, epoch * numBatches + i)] else [];
      BatchEvents(epoch, numBatches, i - 1) + emitted
  }

  /** The events of one whole epoch: the decay check, its batches, then the snapshot check. */
  function EpochEvents(epoch: nat, numBatches: nat, decayStep: int, snapshotInterval: int): seq<Event>
    requires decayStep != 0 && snapshotInterval != 0
  {
    (if DecayEpoch(epoch, decayStep) then [LrHalved(epoch)] else [])
    + BatchEvents(epoch, numBatches, numBatches)
    + (if epoch % snapshotInterval == 0 then [Snapshot(epoch)] else [])
  }

  /** The events of epochs `0 .. e-1`. */
  function EpochsTrace(e: nat, numBatches: nat, decayStep: int, snapshotInterval: int): seq<Event>
    requires e == 0 || (decayStep != 0 && snapshotInterval != 0)
  {
    if e == 0 then []
    else
      var last := EpochEvents(e - 1, numBatches, decayStep, snapshotInterval);
      EpochsTrace(e - 1, numBatches, decayStep, snapshotInterval) + last
  }

  /** One more epoch appends its decay check, its batches and its snapshot check, and `numBatches` steps. */
  lemma EpochStep(e: nat, numBatches: nat, decayStep: int, snapshotInterval: int)
    requires decayStep != 0 && snapshotInterval != 0
    ensures EpochsTrace(e + 1, numBatches, decayStep, snapshotInterval)
      == EpochsTrace(e, numBatches, decayStep, snapshotInterval)
         + (if DecayEpoch(e, decayStep) then [LrHalved(e)] else [])
         + BatchEvents(e, numBatches, numBatches)
         + (if e % snapshotInterval == 0 then [Snapshot(e)] else [])
    ensures (e + 1) * numBatches == e * numBatches + numBatches
    ensures Halvings(e + 1, decayStep) == Halvings(e, decayStep) + (if DecayEpoch(e, decayStep) then 1 else 0)
  {
  }

  /** A completed run: every epoch, then the final snapshot at `maxEpoch`. */
  function TrainTrace(maxEpoch: int, numBatches: nat, decayStep: int, snapshotInterval: int): seq<Event>
    requires maxEpoch > 0 ==> decayStep != 0 && snapshotInterval != 0
  {
    EpochsTrace(Epochs(maxEpoch), numBatches, decayStep, snapshotInterval) + [Snapshot(maxEpoch)]
  }

  /** The number of halvings applied while epochs `0 .. e-1` ran. */
  function Halvings(e: nat, decayStep: int): nat
    requires e == 0 || decayStep != 0
  {
    if e == 0 then 0
    else Halvings(e - 1, decayStep) + (if DecayEpoch(e - 1, decayStep) then 1 else 0)
  }

  /** `0.5 ** k`: a learning rate after `k` halvings is the initial one times this. */
  function HalfPower(k: nat): (f: real)
    ensures 0.0 < f <= 1.0
  {
    if k == 0 then 1.0 else 0.5 * HalfPower(k - 1)
  }

  function Abs(x: int): nat {
    if x < 0 then -x else x
  }

  // ---------------------------------------------------------------------------
  // Learning-rate decay
  // ---------------------------------------------------------------------------

  /** Stepping over one more value raises the quotient by one exactly when the new value is a multiple. */
  lemma DivStep(e: nat, m: nat)
    requires m > 0
    ensures (e + 1) / m == e / m + (if (e + 1) % m == 0 then 1 else 0)
  {
    var q, r := e / m, e % m;
    if r == m - 1 {
      DivModUnique(e + 1, m, q + 1, 0);
    } else {
      DivModUnique(e + 1, m, q, r + 1);
    }
  }

  /** Dafny's and Python's remainders agree on "is a multiple of", for either sign of the divisor. */
  lemma ModAbs(e: nat, d: int)
    requires d != 0
    ensures (e % d == 0) <==> (e % Abs(d) == 0)
  {
    if d < 0 {
      var q, r := e / d, e % d;
      assert e == (-q) * Abs(d) + r;
      DivModUnique(e, Abs(d), -q, r);
    }
  }

  /** After epochs `0 .. e` have run, the rates have been halved `e / |lr_decay_step|` times. */
  lemma {:induction false} HalvingsCount(e: nat, decayStep: int)
    requires decayStep != 0
    ensures Halvings(e + 1, decayStep) == e / Abs(decayStep)
  {
    if e > 0 {
      HalvingsCount(e - 1, decayStep);
      DivStep(e - 1, Abs(decayStep));
      ModAbs(e, decayStep);
    }
  }

  /** A learning rate `lr` halved `k` times, one halving at a time as `train` does. */
  function Decayed(lr: real, k: nat): (r: real)
    ensures lr > 0.0 ==> 0.0 < r <= lr
  {
    if k == 0 then lr else Decayed(lr, k - 1) * 0.5
  }

  /** Halving `k` times one at a time is scaling by `0.5 ** k`. */
  lemma {:induction false} DecayedPower(lr: real, k: nat)
    ensures Decayed(lr, k) == lr * HalfPower(k)
  {
    if k > 0 {
      DecayedPower(lr, k - 1);
      assert lr * HalfPower(k) == (lr * HalfPower(k - 1)) * 0.5;
    }
  }

  // ---------------------------------------------------------------------------
  // Membership in the trace
  // ---------------------------------------------------------------------------

  lemma {:induction false} BatchEventsMembers(epoch: nat, numBatches: nat, i: nat, ev: Event)
    requires i <= numBatches
    ensures ev in BatchEvents(epoch, numBatches, i) <==>
      && ev.Metrics? && ev.epoch == epoch
      && epoch * numBatches < ev.step <= epoch * numBatches + i
      && (ev.step - epoch * numBatches - 1) % METRIC_PERIOD == 0
  {
    if i > 0 {
      BatchEventsMembers(epoch, numBatches, i - 1, ev);
    }
  }

  lemma {:induction false} EpochsTraceMembers(e: nat, numBatches: nat, decayStep: int, snapshotInterval: int, ev: Event)
    requires decayStep != 0 && snapshotInterval != 0
    ensures ev in EpochsTrace(e, numBatches, decayStep, snapshotInterval) <==>
      0 <= ev.epoch < e && ev in EpochEvents(ev.epoch, numBatches, decayStep, snapshotInterval)
  {
    if e > 0 {
      var prev := EpochsTrace(e - 1, numBatches, decayStep, snapshotInterval);
      var last := EpochEvents(e - 1, numBatches, decayStep, snapshotInterval);
      assert EpochsTrace(e, numBatches, decayStep, snapshotInterval) == prev + last;
      EpochsTraceMembers(e - 1, numBatches, decayStep, snapshotInterval, ev);
      if ev in last {
        EpochEventsEpoch(e - 1, numBatches, decayStep, snapshotInterval, ev);
      }
    }
  }

  /** Every event of an epoch is tagged with that epoch. */
  lemma EpochEventsEpoch(epoch: nat, numBatches: nat, decayStep: int, snapshotInterval: int, ev: Event)
    requires decayStep != 0 && snapshotInterval != 0
    requires ev in EpochEvents(epoch, numBatches, decayStep, snapshotInterval)
    ensures ev.epoch == epoch
  {
    BatchEventsMembers(epoch, numBatches, numBatches, ev);
  }

  /** Checkpoints are written at exactly the in-loop epochs that are multiples of the interval, and at `maxEpoch`. */
  lemma SnapshotSchedule(maxEpoch: int, numBatches: nat, decayStep: int, snapshotInterval: int, e: int)
    requires decayStep != 0 && snapshotInterval != 0
    ensures Snapshot(e) in TrainTrace(maxEpoch, numBatches, decayStep, snapshotInterval) <==>
      (0 <= e < maxEpoch && e % snapshotInterval == 0) || e == maxEpoch
  {
    var ev := Snapshot(e);
    EpochsTraceMembers(Epochs(maxEpoch), numBatches, decayStep, snapshotInterval, ev);
    if 0 <= e {
      BatchEventsMembers(e, numBatches, numBatches, ev);
    }
  }

  /** Both rates are halved at the start of exactly the epochs `0 < e < maxEpoch` that are multiples of the decay step. */
  lemma DecaySchedule(maxEpoch: int, numBatches: nat, decayStep: int, snapshotInterval: int, e: int)
    requires decayStep != 0 && snapshotInterval != 0
    ensures LrHalved(e) in TrainTrace(maxEpoch, numBatches, decayStep, snapshotInterval) <==>
      0 < e < maxEpoch && e % decayStep == 0
  {
    var ev := LrHalved(e);
    EpochsTraceMembers(Epochs(maxEpoch), numBatches, decayStep, snapshotInterval, ev);
    if 0 <= e {
      BatchEventsMembers(e, numBatches, numBatches, ev);
    }
  }

  /**
   * Metrics are emitted at global step `c` of epoch `e` exactly when `c` is the
   * step of a batch of that epoch whose index within the epoch is a multiple of
   * 100: the per-epoch index decides, the global count is the step.
   */
  lemma MetricSchedule(maxEpoch: int, numBatches: nat, decayStep: int, snapshotInterval: int, e: int, c: int)
    requires decayStep != 0 && snapshotInterval != 0
    ensures Metrics(e, c) in TrainTrace(maxEpoch, numBatches, decayStep, snapshotInterval) <==>
      && 0 <= e < maxEpoch
      && e * numBatches < c <= e * numBatches + numBatches
      && (c - e * numBatches - 1) % METRIC_PERIOD == 0
  {
    var ev := Metrics(e, c);
    EpochsTraceMembers(Epochs(maxEpoch), numBatches, decayStep, snapshotInterval, ev);
    if 0 <= e {
      BatchEventsMembers(e, numBatches, numBatches, ev);
    }
  }

  /**
   * With 150 batches per epoch the emissions fall at global steps 1, 101, 151
   * and 251, not at every hundredth global step.
   */
  lemma PerEpochCadence()
    ensures Metrics(0, 1) in TrainTrace(2, 150, 1, 1)
    ensures Metrics(0, 101) in TrainTrace(2, 150, 1, 1)
    ensures Metrics(1, 151) in TrainTrace(2, 150, 1, 1)
    ensures Metrics(1, 251) in TrainTrace(2, 150, 1, 1)
    ensures forall e :: Metrics(e, 201) !in TrainTrace(2, 150, 1, 1)
  {
    FirstEpochMetrics(2, 150, 1, 1);
    MetricSchedule(2, 150, 1, 1, 1, 151);
    MetricSchedule(2, 150, 1, 1, 1, 251);
    forall e ensures Metrics(e, 201) !in TrainTrace(2, 150, 1, 1) {
      NoMetricAt201(e);
    }
  }

  /** With more than 100 batches per epoch, epoch 0 emits at global steps 1 and 101. */
  lemma FirstEpochMetrics(maxEpoch: int, numBatches: nat, decayStep: int, snapshotInterval: int)
    requires decayStep != 0 && snapshotInterval != 0
    requires maxEpoch > 0 && numBatches > 100
    ensures Metrics(0, 1) in TrainTrace(maxEpoch, numBatches, decayStep, snapshotInterval)
    ensures Metrics(0, 101) in TrainTrace(maxEpoch, numBatches, decayStep, snapshotInterval)
  {
    MetricSchedule(maxEpoch, numBatches, decayStep, snapshotInterval, 0, 1);
    MetricSchedule(maxEpoch, numBatches, decayStep, snapshotInterval, 0, 101);
  }

  lemma NoMetricAt201(e: int)
    ensures Metrics(e, 201) !in TrainTrace(2, 150, 1, 1)
  {
    MetricSchedule(2, 150, 1, 1, e, 201);
    if e == 1 {
      assert (201 - 1 * 150 - 1) % METRIC_PERIOD == 50;
    } else if e == 0 {
      assert 0 * 150 + 150 < 201;
    }
  }

  /** Events come in epoch order: the trace never goes back to an earlier epoch. */
  lemma {:induction false} EpochsTraceOrdered(e: nat, numBatches: nat, decayStep: int, snapshotInterval: int, i: nat, j: nat)
    requires decayStep != 0 && snapshotInterval != 0
    requires i <= j
    ensures j < |EpochsTrace(e, numBatches, decayStep, snapshotInterval)| ==>
      0 <= EpochsTrace(e, numBatches, decayStep, snapshotInterval)[i].epoch
        <= EpochsTrace(e, numBatches, decayStep, snapshotInterval)[j].epoch < e
  {
    var t := EpochsTrace(e, numBatches, decayStep, snapshotInterval);
    if j >= |t| {
      return;
    }
    var prev := EpochsTrace(e - 1, numBatches, decayStep, snapshotInterval);
    var last := EpochEvents(e - 1, numBatches, decayStep, snapshotInterval);
    assert t == prev + last;
    if j < |prev| {
      EpochsTraceOrdered(e - 1, numBatches, decayStep, snapshotInterval, i, j);
    } else {
      assert t[j] in last;
      EpochEventsEpoch(e - 1, numBatches, decayStep, snapshotInterval, t[j]);
      if i < |prev| {
        EpochsTraceOrdered(e - 1, numBatches, decayStep, snapshotInterval, i, i);
      } else {
        assert t[i] in last;
        EpochEventsEpoch(e - 1, numBatches, decayStep, snapshotInterval, t[i]);
      }
    }
  }

  // ---------------------------------------------------------------------------
  // A whole call of `train`
  // ---------------------------------------------------------------------------

  /**
   * How a call of `train` ends. Besides completing, it stops with an exception
   * when the stage-II loader returned nothing (unpacking `None`), when a
   * modulus it computes is zero, or when the data loader is empty (the
   * progress line reads the unbound loop variables).
   */
  datatype TrainStatus = Completed | NoGenerator | ZeroDecayStep | ZeroSnapshotInterval | EmptyLoader

  /** The status, the events produced up to the end or the exception, and the halvings applied. */
  datatype TrainRun = TrainRun(status: TrainStatus, trace: seq<Event>, halvings: nat)

  /** The outcome of `train` as a function of the configuration and the number of batches per epoch. */
  function TrainOutcome(stage: int, netG: string, stage1G: string, netD: string, maxEpoch: int,
                        numBatches: nat, decayStep: int, snapshotInterval: int): (r: TrainRun)
    ensures r.status == Completed ==> decayStep != 0 || maxEpoch <= 0
    ensures r.status != Completed ==> r.halvings == 0
  {
    var e := Epochs(maxEpoch);
    if stage != 1 && LoadStageII(netG, stage1G, netD).None? then TrainRun(NoGenerator, [], 0)
    else if e > 0 && decayStep == 0 then TrainRun(ZeroDecayStep, [], 0)
    else if e > 0 && numBatches == 0 then TrainRun(EmptyLoader, [], 0)
    else if e > 0 && snapshotInterval == 0 then
      TrainRun(ZeroSnapshotInterval, BatchEvents(0, numBatches, numBatches), 0)
    else TrainRun(Completed, TrainTrace(maxEpoch, numBatches, decayStep, snapshotInterval), Halvings(e, decayStep))
  }

  /**
   * Stage-II training with neither a stage-II nor a stage-I checkpoint stops
   * before any epoch: no event, no halving.
   */
  lemma StageIIWithoutCheckpointStops(stage: int, netD: string, maxEpoch: int, numBatches: nat,
                                      decayStep: int, snapshotInterval: int)
    requires stage != 1
    ensures TrainOutcome(stage, "", "", netD, maxEpoch, numBatches, decayStep, snapshotInterval)
         == TrainRun(NoGenerator, [], 0)
  {
  }
}
