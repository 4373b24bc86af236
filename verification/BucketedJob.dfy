/** A whole distributed job: the trainer's ranks (training/train.py) loading through the length-bucketed
    batch sampler (training/dataloader.py). */
module BucketedJob {
  import Lockstep
  import Sampler

  import opened Ranks
  import opened Trainer

  /** The configuration of a DDP job whose ranks load through the bucketed sampler. */
  function JobConfig(s: Sampler.Settings, permute: Sampler.Shuffler, epochs: nat, valEvery: int, valFullset: bool,
                     patience: int, layerIds: set<int>): Config
    requires Sampler.Valid(s) && Sampler.Shuffles(permute)
  {
    Config(s.world, epochs,
           seq(s.world, r requires 0 <= r < s.world => |Sampler.RankBatches(s, 0, permute, r)|),
           valEvery, valFullset, patience, layerIds)
  }

  /** The sampler yields as many batches on every rank and in every epoch as the
      configuration says, so the whole job is free of deadlock. */
  lemma NeverDeadlocks(s: Sampler.Settings, permute: Sampler.Shuffler, c: Config, steps: seq<Step>,
                       rank: nat, epoch: nat)
    requires Sampler.Valid(s) && Sampler.Shuffles(permute) && rank < s.world
    requires c == JobConfig(s, permute, c.epochs, c.valEvery, c.valFullset, c.patience, c.layerIds)
    requires IsRun(c, Start(c), steps)
    ensures Valid(c) && |Sampler.RankBatches(s, epoch, permute, rank)| == c.batches[rank]
    ensures var w := After(c, Start(c), steps); AllExited(w) || exists x :: Enabled(c, w, x)
    ensures |steps| <= TotalWork(c, Start(c), c.world)
  {
    forall r: nat | r < s.world ensures c.batches[r] == Sampler.BatchCount(s) / s.world {
      Sampler.EqualCounts(s, 0, permute, r);
    }
    Sampler.EqualCounts(s, epoch, permute, rank);
    Lockstep.LockstepTheorem(c, steps);
    RunsAreFinite(c, Start(c), steps);
  }
}
