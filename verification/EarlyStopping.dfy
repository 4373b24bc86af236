/** Best-metric tracking and early stopping of the joint trainer (training/train.py, `state` and
    `_run_val_and_save`). A validation is a `Report`; the trainer keeps, per metric, the best value
    and the validation whose weights the "best" checkpoint holds. */
module EarlyStopping {
  import opened Wrappers

  datatype Score = Score(f1: real, rk: real)

  /** Ensemble metrics and the metrics of each layer. */
  datatype Report = Report(ens: Score, layers: map<int, Score>)

  /** `from` is the index of the validation whose weights were last saved under this metric. */
  datatype Best = Best(value: real, from: Option<nat>)

  datatype Tracker = Tracker(
    ensF1: Best,
    ensRk: Best,
    layerF1: map<int, Best>,
    layerRk: map<int, Best>,
    noImprove: nat,
    earlyStop: bool)

  const NO_BEST := Best(0.0, None)

  function Initial(layerIds: set<int>): Tracker {
    Tracker(NO_BEST, NO_BEST, map l | l in layerIds :: NO_BEST, map l | l in layerIds :: NO_BEST, 0, false)
  }

  function Improve(b: Best, v: real, index: nat): Best {
    if v > b.value then Best(v, Some(index)) else b
  }

  function ImproveLayers(best: map<int, Best>, metric: map<int, real>, index: nat): map<int, Best> {
    map l | l in best :: if l in metric then Improve(best[l], metric[l], index) else best[l]
  }

  function LayerF1(report: Report): map<int, real> {
    map l | l in report.layers :: report.layers[l].f1
  }

  function LayerRk(report: Report): map<int, real> {
    map l | l in report.layers :: report.layers[l].rk
  }

  /** The effect of validation number `index` on rank 0's state. */
  function Update(t: Tracker, report: Report, index: nat, patience: int): Tracker {
    var improved := report.ens.f1 > t.ensF1.value || report.ens.rk > t.ensRk.value;
    var stale := if improved then 0 else t.noImprove + 1;
    Tracker(
      Improve(t.ensF1, report.ens.f1, index),
      Improve(t.ensRk, report.ens.rk, index),
      ImproveLayers(t.layerF1, LayerF1(report), index),
      ImproveLayers(t.layerRk, LayerRk(report), index),
      stale,
      t.earlyStop || (!improved && patience > 0 && stale >= patience))
  }

  /** The state after a whole history of validations. */
  function Replay(history: seq<Report>, layerIds: set<int>, patience: int): Tracker {
    if history == [] then Initial(layerIds)
    else
      var n := |history| - 1;
      Update(Replay(history[..n], layerIds, patience), history[n], n, patience)
  }

  /** The tracked layers are the layers listed, and the report covers them. */
  ghost predicate SameLayers(best: map<int, Best>, metric: map<int, real>, layerIds: seq<int>) {
    && (forall l :: l in best <==> l in layerIds)
    && (forall l :: l in layerIds ==> l in metric)
  }

  /** `now` is `was` with the first `i` listed layers brought up to date. */
  ghost predicate ImprovedUpTo(now: map<int, Best>, was: map<int, Best>, metric: map<int, real>,
                               layerIds: seq<int>, i: nat, index: nat)
  {
    && i <= |layerIds|
    && SameLayers(now, metric, layerIds) && SameLayers(was, metric, layerIds)
    && (forall l :: l in was ==> now[l] == if l in layerIds[..i] then Improve(was[l], metric[l], index) else was[l])
  }

  lemma ImprovedStep(now: map<int, Best>, was: map<int, Best>, metric: map<int, real>,
                     layerIds: seq<int>, i: nat, index: nat)
    requires i < |layerIds| && ImprovedUpTo(now, was, metric, layerIds, i, index)
    ensures var l := layerIds[i];
            && l in now && l in metric
            && ImprovedUpTo(if metric[l] > now[l].value then now[l := Best(metric[l], Some(index))] else now,
                            was, metric, layerIds, i + 1, index)
  {
    var l := layerIds[i];
    assert layerIds[..i + 1] == layerIds[..i] + [l];
  }

  lemma ImprovedAll(now: map<int, Best>, was: map<int, Best>, metric: map<int, real>, layerIds: seq<int>, index: nat)
    requires ImprovedUpTo(now, was, metric, layerIds, |layerIds|, index)
    ensures now == ImproveLayers(was, metric, index)
  {
    var all := ImproveLayers(was, metric, index);
    assert layerIds[..|layerIds|] == layerIds;
    assert forall l :: l in now <==> l in all;
    assert forall l :: l in now ==> now[l] == all[l];
  }

  /** The mutable `state` dictionary of the trainer. */
  class ValidationState {
    var ensF1: Best
    var ensRk: Best
    var layerF1: map<int, Best>
    var layerRk: map<int, Best>
    var noImprove: nat
    var earlyStop: bool

    function View(): Tracker
      reads this
    {
      Tracker(ensF1, ensRk, layerF1, layerRk, noImprove, earlyStop)
    }

    constructor (layerIds: set<int>)
      ensures View() == Replay([], layerIds, 0)
    {
      ensF1, ensRk := NO_BEST, NO_BEST;
      layerF1 := map l | l in layerIds :: NO_BEST;
      layerRk := map l | l in layerIds :: NO_BEST;
      noImprove, earlyStop := 0, false;
    }

    /** The loop over the layers: each best per-layer metric and its checkpoint. */
    method RecordLayers(report: Report, index: nat, layerIds: seq<int>)
      requires SameLayers(layerF1, LayerF1(report), layerIds) && SameLayers(layerRk, LayerRk(report), layerIds)
      modifies this`layerF1, this`layerRk
      ensures layerF1 == ImproveLayers(old(layerF1), LayerF1(report), index)
      ensures layerRk == ImproveLayers(old(layerRk), LayerRk(report), index)
    {
      var f1, rk := LayerF1(report), LayerRk(report);
      for i := 0 to |layerIds|
        invariant ImprovedUpTo(layerF1, old(layerF1), f1, layerIds, i, index)
        invariant ImprovedUpTo(layerRk, old(layerRk), rk, layerIds, i, index)
      {
        var l := layerIds[i];
        ImprovedStep(layerF1, old(layerF1), f1, layerIds, i, index);
        ImprovedStep(layerRk, old(layerRk), rk, layerIds, i, index);
        if f1[l] > layerF1[l].value {
          layerF1 := layerF1[l := Best(f1[l], Some(index))];
        }
        if rk[l] > layerRk[l].value {
          layerRk := layerRk[l := Best(rk[l], Some(index))];
        }
      }
      ImprovedAll(layerF1, old(layerF1), f1, layerIds, index);
      ImprovedAll(layerRk, old(layerRk), rk, layerIds, index);
    }

    /** Rank 0's part of `_run_val_and_save`. `layerIds` is the list the per-layer loop runs over. */
    method Record(report: Report, index: nat, layerIds: seq<int>, patience: int)
      requires SameLayers(layerF1, LayerF1(report), layerIds) && SameLayers(layerRk, LayerRk(report), layerIds)
      modifies this
      ensures View() == Update(old(View()), report, index, patience)
    {
      var improvedAnything := false;
      if report.ens.f1 > ensF1.value {
        ensF1 := Best(report.ens.f1, Some(index));
        improvedAnything := true;
      }
      if report.ens.rk > ensRk.value {
        ensRk := Best(report.ens.rk, Some(index));
        improvedAnything := true;
      }
      RecordLayers(report, index, layerIds);
      if improvedAnything {
        noImprove := 0;
      } else {
        noImprove := noImprove + 1;
        if patience > 0 && noImprove >= patience {
          earlyStop := true;
        }
      }
    }
  }

  // ----- What a history means, stated without the tracker

  /** `b` is the maximum of 0 and all values, together with the earliest index that attains it. */
  ghost predicate IsBestOf(values: seq<real>, b: Best) {
    && b.value >= 0.0
    && (forall i :: 0 <= i < |values| ==> values[i] <= b.value)
    && match b.from
       case None => b.value == 0.0
       case Some(i) => i < |values| && values[i] == b.value > 0.0 && forall j :: 0 <= j < i ==> values[j] < b.value
  }

  /** Value `i` is positive and beats every earlier one. */
  ghost predicate NewRecord(values: seq<real>, i: nat)
    requires i < |values|
  {
    values[i] > 0.0 && forall j :: 0 <= j < i ==> values[j] < values[i]
  }

  function EnsF1s(history: seq<Report>): seq<real> {
    seq(|history|, i requires 0 <= i < |history| => history[i].ens.f1)
  }

  function EnsRks(history: seq<Report>): seq<real> {
    seq(|history|, i requires 0 <= i < |history| => history[i].ens.rk)
  }

  /** Validation `i` set a record for at least one ensemble metric. */
  ghost predicate Improves(history: seq<Report>, i: nat)
    requires i < |history|
  {
    NewRecord(EnsF1s(history), i) || NewRecord(EnsRks(history), i)
  }

  ghost predicate AllStale(history: seq<Report>, lo: nat, hi: nat)
    requires lo <= hi <= |history|
  {
    forall i :: lo <= i < hi ==> !Improves(history, i)
  }

  /** The `patience` validations before number `hi` improved neither ensemble metric. */
  ghost predicate StaleBefore(history: seq<Report>, patience: int, hi: nat) {
    0 < patience <= hi <= |history| && AllStale(history, hi - patience, hi)
  }

  /** Some `patience` consecutive validations improved neither ensemble metric. */
  ghost predicate StaleWindow(history: seq<Report>, patience: int) {
    exists hi: nat :: StaleBefore(history, patience, hi)
  }

  lemma BestStep(values: seq<real>, b: Best, v: real)
    requires IsBestOf(values, b)
    ensures IsBestOf(values + [v], Improve(b, v, |values|))
    ensures v > b.value <==> NewRecord(values + [v], |values|)
  {
    var all := values + [v];
    assert forall i :: 0 <= i < |values| ==> all[i] == values[i];
    if v > b.value {
      forall j | 0 <= j < |values| ensures all[j] < all[|values|] {
        assert values[j] <= b.value;
      }
    } else if b.from.Some? && v > 0.0 {
      assert all[b.from.value] == b.value;
    }
  }

  lemma ImprovesPrefix(history: seq<Report>, n: nat, i: nat)
    requires i < n <= |history|
    ensures Improves(history[..n], i) <==> Improves(history, i)
  {
    var a, b := EnsF1s(history[..n]), EnsF1s(history);
    var c, d := EnsRks(history[..n]), EnsRks(history);
    assert forall j :: 0 <= j < n ==> a[j] == b[j] && c[j] == d[j];
  }

  /** Each best ensemble metric is the maximum of 0 and everything seen, and its checkpoint comes from
      the earliest validation attaining it. */
  lemma {:induction false} BestEnsemble(history: seq<Report>, layerIds: set<int>, patience: int)
    ensures IsBestOf(EnsF1s(history), Replay(history, layerIds, patience).ensF1)
    ensures IsBestOf(EnsRks(history), Replay(history, layerIds, patience).ensRk)
  {
    if history != [] {
      var n := |history| - 1;
      BestEnsemble(history[..n], layerIds, patience);
      var t := Replay(history[..n], layerIds, patience);
      BestStep(EnsF1s(history[..n]), t.ensF1, history[n].ens.f1);
      BestStep(EnsRks(history[..n]), t.ensRk, history[n].ens.rk);
      assert EnsF1s(history) == EnsF1s(history[..n]) + [history[n].ens.f1];
      assert EnsRks(history) == EnsRks(history[..n]) + [history[n].ens.rk];
    }
  }

  function LayerScores(history: seq<Report>, layer: int): seq<Score>
    requires forall r :: r in history ==> layer in r.layers
  {
    seq(|history|, i requires 0 <= i < |history| => history[i].layers[layer])
  }

  function F1sOf(scores: seq<Score>): seq<real> {
    seq(|scores|, i requires 0 <= i < |scores| => scores[i].f1)
  }

  function RksOf(scores: seq<Score>): seq<real> {
    seq(|scores|, i requires 0 <= i < |scores| => scores[i].rk)
  }

  lemma LastScores(history: seq<Report>, layer: int)
    requires history != [] && forall r :: r in history ==> layer in r.layers
    ensures var n := |history| - 1;
            && (forall r :: r in history[..n] ==> layer in r.layers) && layer in history[n].layers
            && F1sOf(LayerScores(history, layer)) == F1sOf(LayerScores(history[..n], layer)) + [history[n].layers[layer].f1]
            && RksOf(LayerScores(history, layer)) == RksOf(LayerScores(history[..n], layer)) + [history[n].layers[layer].rk]
  {
    var n := |history| - 1;
    assert history[n] in history && forall r :: r in history[..n] ==> r in history;
  }

  /** The same for the two per-layer checkpoints of every trained layer. */
  lemma {:induction false} BestPerLayer(history: seq<Report>, layerIds: set<int>, patience: int, layer: int)
    requires layer in layerIds
    requires forall r :: r in history ==> layer in r.layers
    ensures layer in Replay(history, layerIds, patience).layerF1 && layer in Replay(history, layerIds, patience).layerRk
    ensures IsBestOf(F1sOf(LayerScores(history, layer)), Replay(history, layerIds, patience).layerF1[layer])
    ensures IsBestOf(RksOf(LayerScores(history, layer)), Replay(history, layerIds, patience).layerRk[layer])
  {
    if history != [] {
      var n := |history| - 1;
      var before, last := history[..n], history[n];
      assert last in history && forall r :: r in before ==> r in history;
      BestPerLayer(before, layerIds, patience, layer);
      var t := Replay(before, layerIds, patience);
      var s := LayerScores(before, layer);
      BestStep(F1sOf(s), t.layerF1[layer], last.layers[layer].f1);
      BestStep(RksOf(s), t.layerRk[layer], last.layers[layer].rk);
      LastScores(history, layer);
    }
  }

  /** The stale counter after `history` is the length of the trailing run of validations that improved
      neither ensemble metric: all of the run is stale and the validation just before it was not. */
  ghost predicate IsStaleRun(history: seq<Report>, n: nat) {
    && n <= |history|
    && AllStale(history, |history| - n, |history|)
    && (n < |history| ==> Improves(history, |history| - n - 1))
  }

  lemma {:induction false} StaleCounter(history: seq<Report>, layerIds: set<int>, patience: int)
    ensures IsStaleRun(history, Replay(history, layerIds, patience).noImprove)
  {
    if history != [] {
      var n := |history| - 1;
      var before := history[..n];
      StaleCounter(before, layerIds, patience);
      LastImproves(history, layerIds, patience);
      forall i | 0 <= i < n ensures Improves(before, i) <==> Improves(history, i) {
        ImprovesPrefix(history, n, i);
      }
    }
  }

  lemma LastImproves(history: seq<Report>, layerIds: set<int>, patience: int)
    requires history != []
    ensures var n := |history| - 1;
            var t := Replay(history[..n], layerIds, patience);
            Improves(history, n) <==> history[n].ens.f1 > t.ensF1.value || history[n].ens.rk > t.ensRk.value
  {
    var n := |history| - 1;
    var before := history[..n];
    var t := Replay(before, layerIds, patience);
    BestEnsemble(before, layerIds, patience);
    BestStep(EnsF1s(before), t.ensF1, history[n].ens.f1);
    BestStep(EnsRks(before), t.ensRk, history[n].ens.rk);
    assert EnsF1s(history) == EnsF1s(before) + [history[n].ens.f1];
    assert EnsRks(history) == EnsRks(before) + [history[n].ens.rk];
  }

  /** Early stop is set exactly when some `patience` consecutive validations were all stale,
      and it is never cleared. */
  lemma {:induction false} EarlyStopExact(history: seq<Report>, layerIds: set<int>, patience: int)
    ensures Replay(history, layerIds, patience).earlyStop <==> StaleWindow(history, patience)
  {
    if history != [] {
      var n := |history| - 1;
      var before := history[..n];
      EarlyStopExact(before, layerIds, patience);
      StaleCounter(history, layerIds, patience);
      LastImproves(history, layerIds, patience);
      forall hi: nat | hi <= n ensures StaleBefore(before, patience, hi) <==> StaleBefore(history, patience, hi) {
        forall i | 0 <= i < hi ensures Improves(before, i) <==> Improves(history, i) {
          ImprovesPrefix(history, n, i);
        }
      }
      if StaleWindow(before, patience) {
        var hi: nat :| StaleBefore(before, patience, hi);
        assert StaleBefore(history, patience, hi);
      } else if patience > 0 && Replay(history, layerIds, patience).noImprove >= patience {
        assert StaleBefore(history, patience, n + 1);
      }
    }
  }

  /** Once set, the flag survives every later validation, even one that improves both metrics. */
  lemma {:induction false} EarlyStopSticks(history: seq<Report>, n: nat, layerIds: set<int>, patience: int)
    requires n <= |history|
    requires Replay(history[..n], layerIds, patience).earlyStop
    ensures Replay(history, layerIds, patience).earlyStop
  {
    if n < |history| {
      var m := |history| - 1;
      assert history[..m][..n] == history[..n];
      EarlyStopSticks(history[..m], n, layerIds, patience);
    } else {
      assert history[..n] == history;
    }
  }
}
