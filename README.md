# GANTrainer control logic, modelled in Dafny

`trainer.py` holds `GANTrainer`, the driver of a two-stage text-to-image GAN.
It trains the stage-I or stage-II generator and discriminator, samples
images from caption embeddings, and runs an evaluation pass over a data set.
Most of the class hands tensors to PyTorch. This model keeps the integer,
string and branching logic underneath that, with the networks, losses and
images replaced by abstract values:

- **The constructor's device setup**: `gpu_id.split(',')`, `int` on each
  piece, batch scaling by the number of devices, and the first device selected
  (`GpuConfig`, `Trainer.GANTrainer.constructor`).
- **The network loaders**: which weights the stage-I and stage-II loaders
  restore. For stage II the priority is a full stage-II checkpoint, then a
  stage-I seed for the embedded stage-I generator, then nothing. The
  discriminator is restored on its own (`NetworkLoader`).
- **The `train` schedule**: learning-rate halving, metric emission and
  checkpoint writes, as a trace of events. The learning rates are halved in
  place on the trainer object, and the run ends with a status (`TrainSchedule`,
  `Trainer.GANTrainer.Train`).
- **The `sample` batch loop**: the batch size `min(n, batch_size)`, batches at
  0, b, 2b, …, the last batch pulled back to end at the last embedding, the stop
  once the counter passes 3000, and the image file each batch writes. The output
  directory is `net_g[:net_g.find('.pth')]` (`SampleSchedule`, `SavePath`,
  `Trainer.GANTrainer.Sample`).
- **The `birds_eval` loop**: an exact stride over the data batches, with no
  clamp and no cap. The model takes the generator to return one image per
  embedding row. Under that assumption, a batch with fewer rows than the batch
  size writes the images it has and then stops the loop with `IndexError` at
  `fake_imgs[i]` (`SampleSchedule`, `Trainer.GANTrainer.BirdsEval`).

A file written by `sample` or `birds_eval` is modelled as a map from its number
to an `Image(source, batch)`: the embedding row the image was generated from,
and which generator call produced it (each call draws fresh noise). When a
name is written twice, the later write replaces the earlier one, as a second
`Image.save` to the same path does.

Each loop of the source is a `while` loop in `Trainer`. It is proved equal to a
recursive function that runs the same steps (`EpochsTrace`, `BatchEvents`,
`SampleRun`, `WriteBatch`, `EvalRun`, `WriteRowsFrom`). The properties the
source promises are lemmas about those functions.

Some consequences of trainer.py as written:

- Metrics are emitted when the batch index `i` within the epoch is a multiple
  of 100, and they are logged at the global step `count` (trainer.py:197-198).
  With 150 batches per epoch that gives global steps 1, 101, 151 and 251
  (`PerEpochCadence`).
- `load_network_stageII` with neither generator path prints a message and
  returns `None` (trainer.py:101-103). `train` then fails unpacking `None`
  before any epoch (trainer.py:122), which is modelled as the status
  `NoGenerator`.
- The output directory of `sample` is `net_g` cut at its first `.pth`
  (trainer.py:252). Without `.pth`, `find` returns -1 and the slice drops the
  last character of `net_g`.
- The cap check comes before each batch (trainer.py:261-262). So a batch can
  start at 3000 itself, and up to `3000 + b` images are written, named
  `0 .. 3000 + b - 1`. For example, 10000 embeddings in batches of 4 give 3004
  files (`CapStopsSampling`).

## Model

| member | source | states |
|---|---|---|
| GpuConfig.Split | trainer.py:53 | `str.split(',')`: at least one piece, no piece holds a comma, and joining the pieces with commas gives the string back |
| GpuConfig.SplitJoin | trainer.py:53 | splitting a comma-joined list of comma-free pieces gives exactly those pieces |
| GpuConfig.ParseNatToString | trainer.py:54 | `int(str(n)) == n`, also with white space on both sides |
| GpuConfig.ParseAll | trainer.py:54 | `[int(ix) for ix in pieces]`: on success, one id per piece, each the value of its piece; on failure, the reported piece is one of the pieces and is not an integer |
| GpuConfig.ParseAllFirstError | trainer.py:54 | the piece reported on failure is the first piece that is not an integer: every piece before it reads as one |
| GpuConfig.ParseAllValues | trainer.py:54 | pieces that each read as an id read together as that list of ids |
| GpuConfig.DeviceSetup | trainer.py:53-57 | on success, the number of devices is the number of comma-separated pieces, the batch size is the per-device size times that number, the device is the first id, and id `i` is `int` of piece `i`; otherwise a piece that is not an integer is reported (Python's ValueError) |
| GpuConfig.DeviceSetupJoinIds | trainer.py:53-57 | for any non-empty list of natural ids written as `','.join(map(str, ids))`, setup yields exactly those ids, batch size times their number, and the first id as the device |
| GpuConfig.ThreeDevices | trainer.py:53-57 | `"0,1,2"` with per-device batch 16 gives devices [0,1,2], batch 48 and device 0 |
| Trainer.GANTrainer.constructor | trainer.py:40-57 | the fields hold the constructor's arguments, and the device list, scaled batch size and selected device are those of `DeviceSetup` |
| SavePath.Find | trainer.py:252 | `str.find`: the first index where the pattern occurs, or -1 exactly when it occurs nowhere |
| SavePath.SaveDir | trainer.py:252 | the save directory is a prefix of `net_g` |
| SavePath.SaveDirFound | trainer.py:252 | when `net_g` holds ".pth", the directory is followed by ".pth" in `net_g` and holds no ".pth" itself (it is cut at the first occurrence) |
| SavePath.SaveDirAbsent | trainer.py:252 | without ".pth", `find` gives -1 and the directory is `net_g` minus its last character (empty stays empty) |
| SavePath.SaveDirOfCheckpoint | trainer.py:252 | `p + ".pth" + rest`, with no ".pth" in `p`, gives the directory `p` |
| SavePath.NoDotNoExtension | trainer.py:252 | a path with no '.' holds no ".pth" |
| SavePath.SaveDirExamples | trainer.py:252 | `models/netG_epoch_600.pth` gives `models/netG_epoch_600`, and `netG` gives `net` |
| NetworkLoader.LoadStageI | trainer.py:70-78 | stage I always returns both networks, each restored from its own path exactly when that path is non-empty |
| NetworkLoader.LoadStageII | trainer.py:92-110 | nothing is returned exactly when both generator paths are empty; a non-empty `net_g` restores the whole stage-II generator; otherwise `stage1_g` restores only the embedded stage-I generator; the discriminator is restored exactly when `net_d` is non-empty |
| NetworkLoader.FullCheckpointWins | trainer.py:92-96 | with a non-empty `net_g`, the result does not depend on `stage1_g` |
| NetworkLoader.StageISeedMatchesStageI | trainer.py:97-100 | seeding from `stage1_g` gives the embedded generator the weights stage-I loading from that path gives, leaves the rest initialised, and restores the discriminator weights as stage-I loading does |
| NetworkLoader.DiscriminatorIndependent | trainer.py:105-110 | the discriminator does not depend on how the generator was resolved |
| TrainSchedule.HalfPower | trainer.py:146-152 | `0.5 ** k` lies in (0, 1] |
| TrainSchedule.Decayed | trainer.py:147-150 | a positive rate halved `k` times stays positive and does not grow |
| TrainSchedule.DecayedPower | trainer.py:146-152 | halving `k` times, one `*= 0.5` at a time, is scaling by `0.5 ** k` |
| TrainSchedule.DivStep | trainer.py:146 | one more epoch raises `e / m` by one exactly when the new epoch is a multiple of `m` |
| TrainSchedule.ModAbs | trainer.py:146 | "is a multiple of" agrees between Python's `%` and Dafny's `%`, for either sign of the divisor |
| TrainSchedule.HalvingsCount | trainer.py:146-152 | after epochs `0 .. e` the rates have been halved `e / abs(lr_decay_step)` times |
| TrainSchedule.DecaySchedule | trainer.py:144-152 | a halving happens at the start of epoch `e` exactly when `0 < e < max_epoch` and `e % lr_decay_step == 0` |
| TrainSchedule.SnapshotSchedule | trainer.py:229-232 | a checkpoint for epoch `e` is written exactly when `0 <= e < max_epoch` and `e % snapshot_interval == 0`, or `e == max_epoch` |
| TrainSchedule.BatchEventsMembers | trainer.py:154-211 | the metric events of an epoch's first `i` batches are exactly the steps after the epoch's start whose per-epoch index is a multiple of 100 |
| TrainSchedule.MetricSchedule | trainer.py:154-211 | metrics for epoch `e` at global step `c` are emitted exactly when `c` is the step of a batch of epoch `e` whose per-epoch index is a multiple of 100 |
| TrainSchedule.PerEpochCadence | trainer.py:197-211 | with 150 batches per epoch, metrics fall at global steps 1, 101, 151 and 251 and never at 201 |
| TrainSchedule.FirstEpochMetrics | trainer.py:197-211 | with more than 100 batches per epoch, the first epoch emits metrics at global steps 1 and 101 |
| TrainSchedule.NoMetricAt201 | trainer.py:197-211 | with 150 batches per epoch, no epoch emits metrics at global step 201 |
| TrainSchedule.EpochsTraceMembers | trainer.py:144-230 | an event is in the trace of epochs `0 .. e-1` exactly when its epoch is below `e` and it is one of that epoch's events |
| TrainSchedule.EpochEventsEpoch | trainer.py:144-230 | every event of an epoch is tagged with that epoch |
| TrainSchedule.EpochsTraceOrdered | trainer.py:144-230 | events come in non-decreasing epoch order |
| TrainSchedule.TrainOutcome | trainer.py:118-232 | a completed run had a non-zero decay step (or no epoch), and a run that stops with an exception has applied no halving |
| TrainSchedule.StageIIWithoutCheckpointStops | trainer.py:97-103 | stage-II training with neither generator path stops before any epoch, with no event and no halving |
| Trainer.GANTrainer.Train | trainer.py:118-232 | the status and event trace are those of `TrainOutcome`; both learning-rate fields end halved once per halving of that run, together |
| Trainer.RunBatches | trainer.py:154-211 | one epoch's batch loop appends exactly that epoch's metric events and advances the global step by the number of batches |
| SampleSchedule.ClampedStart | trainer.py:263-266 | the batch taken at counter `count` is a full batch inside the embeddings that starts at or before the counter and reaches past it |
| SampleSchedule.BatchStartsShape | trainer.py:258-266 | batch `i` starts at `count + i * b` while that batch fits; a batch that would run past the end is the last one and ends exactly at the last embedding |
| SampleSchedule.BatchStarts | trainer.py:260-267 | every batch start lies within the embeddings with a full batch after it, and no start exceeds 3000 |
| SampleSchedule.CapEndFrom | trainer.py:261-262 | the counter, stepping by `b`, first passes the cap at or after where it starts |
| SampleSchedule.CapEndFromBound | trainer.py:261-262 | starting within one batch above the cap, the counter first passes the cap at most one batch above it |
| SampleSchedule.CapEndFromMultiple | trainer.py:261-262 | starting at a multiple of `b` that is at most `(3000 / b + 1) * b`, the counter first passes the cap exactly at `(3000 / b + 1) * b` |
| SampleSchedule.CapEndValue | trainer.py:260-262 | from 0, the counter first passes the cap at `(3000 / b + 1) * b`, which lies in (3000, 3000 + b] |
| SampleSchedule.FinalCountFrom | trainer.py:259-290 | from any counter within the embeddings, `sample` ends at the smaller of `n` and where the cap stops it |
| SampleSchedule.WriteBatchFiles | trainer.py:280-289 | one batch adds exactly the names `start + i .. start + b - 1`, each holding the image of its own row tagged with that batch, and keeps every other file |
| SampleSchedule.SampleRunNames | trainer.py:259-290 | from a counter with every earlier name written, `sample` adds exactly the names up to the smaller of `n` and the cap end |
| SampleSchedule.SampleRunSources | trainer.py:259-290 | every file `sample` writes under name `j` is an image of embedding row `j` |
| SampleSchedule.SampleCoverage | trainer.py:255-290 | from an empty directory: the counter ends at `min(n, cap end)`, the files are exactly `0 .. min(n, cap end) - 1`, file `i` shows row `i`, and no name reaches `3000 + b` |
| SampleSchedule.SampleWithoutCap | trainer.py:259-290 | when the cap does not fire, every index `0 .. n-1` is written and the counter ends at `n` |
| SampleSchedule.TenEmbeddingsStarts | trainer.py:260-267 | 10 embeddings in batches of 4 start at 0, 4 and 6 |
| SampleSchedule.TenEmbeddingsOverlap | trainer.py:263-289 | with 10 embeddings in batches of 4, files 4 and 5 come from the second batch, and files 6 and 7 come from the third batch, which overwrites them |
| SampleSchedule.TenEmbeddingsInFours | trainer.py:255-290 | 10 embeddings in batches of 4: starts 0, 4, 6, and exactly the files 0..9; files 6 and 7 keep the later images |
| SampleSchedule.CapStopsSampling | trainer.py:260-262 | 10000 embeddings in batches of 4 stop at counter 3004, with exactly the files 0..3003 |
| Trainer.GANTrainer.Sample | trainer.py:236-290 | the output directory is `SaveDir(net_g)`; the batch starts, files and final counter are those of the schedule; every batch lies within the embeddings; the files are exactly `0 .. count-1`, each showing its own row, all named below `3000 + min(n, batch_size)` |
| Trainer.SampleBatches | trainer.py:259-290 | the loop visits exactly the batch starts `BatchStarts`, writes exactly the files `SampleRun` and ends at `FinalCount` |
| Trainer.WriteSampleBatch | trainer.py:267-289 | one batch's write loop writes the slice `embeddings[start:start+b]` to names `start .. start+b-1`, as `WriteBatch` describes |
| SampleSchedule.WriteRowsFiles | trainer.py:333-342 | one data batch writes exactly names `count + i .. count + n - 1` from rows `i .. n-1` and keeps every other file |
| SampleSchedule.EvalFullBatches | trainer.py:314-343 | when every data batch has at least `b > 0` rows, the loop ends with no error at counter `b * batches`, file `j` holds row `j % b` of batch `j / b` (from that batch's call), and no other name is added |
| SampleSchedule.EvalShortBatch | trainer.py:314-343 | a data batch `k` shorter than `b`, after full ones, stops the loop with IndexError at `k`, with the counter at `k * b` and the names up to `k * b + rows - 1` written |
| Trainer.WriteRows | trainer.py:333-342 | the write loop of a data batch completes exactly when the batch has at least `batch_size` rows; an incomplete batch has written all the rows it has |
| Trainer.GANTrainer.BirdsEval | trainer.py:314-343 | the files, counter and error point are those of `EvalRun`; with a positive batch size and no short batch, it ends at `batches * batch_size` with exactly the files `0 .. batches * batch_size - 1` |

## Left out

- The networks, losses and optimiser steps (`STAGE1_G`, `STAGE2_G`, the
  discriminators, `weights_init`, the loss functions, `backward`, `Adam.step`,
  `data_parallel`): these are library code outside trainer.py. Networks are
  abstract values that record where their weights came from, and an image
  records only its embedding row and its batch.
- Floating-point work: noise draws, the pixel rescale and `uint8` cast, and
  loss values. Learning rates are exact reals, so float underflow after many
  halvings is not modelled.
- I/O: `torch.load`, `torchfile.load`, `save_model`, `save_img_results`,
  `mkdir_p`, `Image.save`, the summary writer and `print`. A checkpoint or
  summary is an event in the trace. A saved image is an entry in the file map.
  Read failures of checkpoints are not modelled.
- CUDA and cudnn selection: only the id of the selected device is kept.
- The optimisers' `param_groups` are not separate state. Their rates are the
  trainer's two rate fields, which the source copies into them.
- `sample` and `birds_eval` call the loaders with no arguments, and
  `birds_eval` reads the undefined `self.z_dim`, `Variable` and `self.netG`.
  As written, both these paths fail before their loops. Only their loops are
  modelled, and `birds_eval`'s directory name is not.
- `birds_eval` as written reuses `i` for the inner loop. The outer batch index
  is only printed, so this changes nothing in the model.
- Trainer.GANTrainer.Train: takes the data loader to yield the same number of
  batches, `numBatches`, in every epoch. The source iterates `data_loader`
  afresh in each epoch (trainer.py:154), and a loader whose length changes
  between epochs is not modelled.
- Trainer.GANTrainer.Train: requires `train_flag`, because without it the
  source never creates the model directory and summary writer that `train`
  uses.
- Trainer.GANTrainer.Sample: requires a positive batch size, because with a
  batch size of 0 or less and at least one embedding the source loop never
  ends.
- Trainer.GANTrainer.Sample: takes the number of embedding rows to equal the
  number of captions. The source counts captions (`len(captions_list)`,
  trainer.py:245-247), separately from the rows of
  `np.concatenate(t_file.fea_txt)`, and a file whose two counts differ is not
  modelled.
- SampleSchedule.EvalShortBatch: assumes the generator returns one image per
  embedding row of the batch. The generator is outside trainer.py, and it is
  given `batch_size` noise rows (trainer.py:301, 329-332). So on a short batch
  it may instead raise before any file of that batch is written, or return
  `batch_size` images. The same assumption underlies `SampleSchedule.EvalRun`,
  `Trainer.WriteRows` and `Trainer.GANTrainer.BirdsEval` on a short batch.
- Trainer.GANTrainer.constructor: requires a `gpu_id` whose pieces all parse.
  A failing `int` raises in the source, and `DeviceSetup` models that error as
  a value.
- GpuConfig.ParseAll: `int` is modelled as the white space `int()` strips
  (`str.isspace()` without U+001C..U+001F) around an optional sign and ASCII
  decimal digits. Underscores between digits and
  non-ASCII decimal digits, which Python also accepts, are not modelled.
- `load_network_stageI` and `load_network_stageII` print the networks. The
  stage-II loader builds the discriminator only after choosing the generator,
  and this order is not observable in the model.
