/**
 * Which weights the trainer's loaders put into the networks they build. The
 * networks are abstract: a network is the provenance of its weights, either
 * the fresh `weights_init` values or the state dict read from a path. An empty
 * path means "not given".
 */
module NetworkLoader {
  import opened Wrappers

  datatype Weights = Initialized | Restored(path: string)

  /**
   * A generator. The stage-II generator wraps a stage-I generator
   * (`netG.STAGE1_G`) whose weights can be restored on their own; `refiner`
   * stands for every stage-II weight outside that submodule.
   */
  datatype Generator =
    | StageIGenerator(weights: Weights)
    | StageIIGenerator(stage1: Weights, refiner: Weights)

  datatype Discriminator = Discriminator(weights: Weights)

  datatype Networks = Networks(g: Generator, d: Discriminator)

  /** The weights of a freshly initialised network, overwritten from `path` when one is given. */
  function RestoreIfGiven(path: string): (w: Weights)
    ensures path == "" <==> w == Initialized
    ensures path != "" ==> w == Restored(path)
  {
    if path != "" then Restored(path) else Initialized
  }

  /**
   * `load_network_stageI`: both networks are initialised, then each is
   * restored from its own path when that path is given. It never gives up.
   */
  function LoadStageI(netG: string, netD: string): (r: Networks)
    ensures r.g.StageIGenerator? && r.d.Discriminator?
    ensures netG != "" <==> r.g.weights == Restored(netG)
    ensures netD != "" <==> r.d.weights == Restored(netD)
    ensures netG == "" <==> r.g.weights == Initialized
    ensures netD == "" <==> r.d.weights == Initialized
  {
    Networks(StageIGenerator(RestoreIfGiven(netG)), Discriminator(RestoreIfGiven(netD)))
  }

  /**
   * `load_network_stageII`: a full stage-II checkpoint restores the whole
   * generator; failing that, a stage-I checkpoint restores only the embedded
   * stage-I submodule; with neither, nothing is returned. The discriminator is
   * restored from its own path, independently.
   */
  function LoadStageII(netG: string, stage1G: string, netD: string): (r: Option<Networks>)
    ensures r.None? <==> netG == "" && stage1G == ""
    ensures r.Some? ==> r.value.g.StageIIGenerator?
    ensures netG != "" ==> r == Some(Networks(StageIIGenerator(Restored(netG), Restored(netG)), r.value.d))
    ensures netG == "" && stage1G != "" ==>
      r == Some(Networks(StageIIGenerator(Restored(stage1G), Initialized), r.value.d))
    ensures r.Some? ==> (netD != "" <==> r.value.d.weights == Restored(netD))
    ensures r.Some? ==> (netD == "" <==> r.value.d.weights == Initialized)
  {
    if netG != "" then
      Some(Networks(StageIIGenerator(Restored(netG), Restored(netG)), Discriminator(RestoreIfGiven(netD))))
    else if stage1G != "" then
      Some(Networks(StageIIGenerator(Restored(stage1G), Initialized), Discriminator(RestoreIfGiven(netD))))
    else
      None
  }

  /** A full stage-II checkpoint wins whatever stage-I path is also given. */
  lemma FullCheckpointWins(netG: string, stage1G: string, otherStage1G: string, netD: string)
    requires netG != ""
    ensures LoadStageII(netG, stage1G, netD) == LoadStageII(netG, otherStage1G, netD)
  {
  }

  /**
   * Seeding stage II from a stage-I checkpoint gives its submodule exactly the
   * weights stage-I loading from that checkpoint gives the stage-I generator,
   * and leaves the rest of stage II at its initial values.
   */
  lemma StageISeedMatchesStageI(stage1G: string, netD: string)
    requires stage1G != ""
    ensures var r := LoadStageII("", stage1G, netD);
      && r.Some?
      && r.value.g.stage1 == LoadStageI(stage1G, netD).g.weights
      && r.value.g.refiner == Initialized
      && r.value.d.weights == LoadStageI(stage1G, netD).d.weights
  {
  }

  /** The discriminator does not depend on how the generator was resolved. */
  lemma DiscriminatorIndependent(netG: string, stage1G: string, otherNetG: string, otherStage1G: string, netD: string)
    requires LoadStageII(netG, stage1G, netD).Some?
    requires LoadStageII(otherNetG, otherStage1G, netD).Some?
    ensures LoadStageII(netG, stage1G, netD).value.d == LoadStageII(otherNetG, otherStage1G, netD).value.d
  {
  }
}
