/**
 * The epoch control of `one_fold`: the divergence guard, the early-stopping decision
 * and the cache of the predictions made at the best epoch, inside the retry loop that
 * restarts a diverged fold, and the loop over the folds.
 *
 * The model, the loss and `EarlyStopping` are not modelled. Epoch `e` of attempt `t`
 * yields a summed dev loss and the argmax predictions on the gold dev and test sets,
 * given as a function of `(t, e)`. `es.step` and `es.is_best` are functions of the
 * values passed to `es.step` so far in the attempt: any deterministic monitor created
 * fresh per attempt answers that way.
 */
module FoldTraining {
  import opened Wrappers

  const MAX_EPOCH: nat := 200
  /** The mean dev loss above which an epoch counts as diverged. */
  const DIVERGENCE_LOSS: real := 1.3
  /** Epochs up to this index never count as diverged. */
  const WARMUP_EPOCH: nat := 4

  /** What one epoch yields: the summed dev loss and the two argmax prediction vectors. */
  datatype EpochResult = EpochResult(devLoss: real, devPred: seq<int>, testPred: seq<int>)

  /** The predictor of one fold: the result of epoch `e` of attempt `t`. */
  type Trainer = (nat, nat) -> EpochResult

  /** An `EarlyStopping` answer, given the values passed to `es.step` in the attempt so far. */
  type Verdict = seq<real> -> bool

  /** `dev_loss / len(dev_data_set) > 1.3 and num_epoch > 4`. */
  predicate Diverged(devLoss: real, devSize: nat, epoch: nat)
    requires devSize > 0
  {
    devLoss / devSize as real > DIVERGENCE_LOSS && epoch > WARMUP_EPOCH
  }

  /** `pred_list_test(_best)` and `final_pred(_list_test/_best)`: dev and test predictions, `None` before any. */
  datatype Cache = Cache(dev: Option<seq<int>>, test: Option<seq<int>>)

  const NoPreds: Cache := Cache(None, None)

  function Preds(r: EpochResult): Cache
  {
    Cache(Some(r.devPred), Some(r.testPred))
  }

  /** The loop state of one attempt: the best cache, the predictions of the last epoch, and the `es.step` arguments. */
  datatype AttemptState = AttemptState(best: Cache, cur: Cache, history: seq<real>)

  datatype Outcome = Continue | Diverge | Stop

  datatype EpochEnd = EpochEnd(state: AttemptState, outcome: Outcome)

  /**
   * One pass of the epoch loop body after training, given epoch `epoch`'s result `r`:
   * the divergence guard, `es.step(dev_loss)`, the cache update, then the inference
   * passes whose predictions the next epoch may copy.
   */
  function Epoch(s: AttemptState, r: EpochResult, epoch: nat, devSize: nat, step: Verdict, isBest: Verdict): EpochEnd
    requires devSize > 0
  {
    if Diverged(r.devLoss, devSize, epoch) then EpochEnd(s, Diverge)
    else
      var h := s.history + [r.devLoss];
      if step(h) then EpochEnd(s.(history := h), Stop)
      else
        var best :=
          if isBest(h) then s.cur
          else Cache(if s.best.dev.None? then s.cur.dev else s.best.dev,
                     if s.best.test.None? then s.cur.test else s.best.test);
        EpochEnd(AttemptState(best, Preds(r), h), Continue)
  }

  /** How an attempt ends: the best cache, and whether it diverged. */
  datatype AttemptEnd = AttemptEnd(best: Cache, diverged: bool)

  /** The epoch loop of attempt `t` from epoch `e` on. */
  function RunEpochs(s: AttemptState, t: nat, e: nat, train: Trainer, devSize: nat, step: Verdict, isBest: Verdict): AttemptEnd
    requires devSize > 0
    decreases MAX_EPOCH - e
  {
    if e >= MAX_EPOCH then AttemptEnd(s.best, false)
    else
      var end := Epoch(s, train(t, e), e, devSize, step, isBest);
      match end.outcome
      case Diverge => AttemptEnd(end.state.best, true)
      case Stop => AttemptEnd(end.state.best, false)
      case Continue => RunEpochs(end.state, t, e + 1, train, devSize, step, isBest)
  }

  /** A fresh attempt: a new monitor and no predictions yet; the best cache carries over. */
  function Fresh(best: Cache): AttemptState
  {
    AttemptState(best, NoPreds, [])
  }

  /** The `while True` loop could run forever; the model gives up after `fuel` attempts. */
  datatype RetriesExhausted = RetriesExhausted

  /** One whole attempt, given the cache it starts with and its number. */
  type Runner = (Cache, nat) -> AttemptEnd

  function Attempt(train: Trainer, devSize: nat, step: Verdict, isBest: Verdict): Runner
    requires devSize > 0
  {
    (best: Cache, t: nat) => RunEpochs(Fresh(best), t, 0, train, devSize, step, isBest)
  }

  /** The retry loop from attempt `t` on, with at most `fuel` more attempts. */
  function Attempts(best: Cache, t: nat, fuel: nat, run: Runner): Result<Cache, RetriesExhausted>
    decreases fuel
  {
    if fuel == 0 then Failure(RetriesExhausted)
    else
      var end := run(best, t);
      if end.diverged then Attempts(end.best, t + 1, fuel - 1, run)
      else Success(end.best)
  }

  /** What `one_fold` appends to `all_fold_results` and `real_test_results`. */
  function FoldResult(train: Trainer, devSize: nat, step: Verdict, isBest: Verdict, maxAttempts: nat): Result<Cache, RetriesExhausted>
    requires devSize > 0
  {
    Attempts(NoPreds, 0, maxAttempts, Attempt(train, devSize, step, isBest))
  }

  // ---------------------------------------------------------------------------
  // The cache rule, the timing and the pairing

  /**
   * The cache rule of one epoch: a diverged epoch changes nothing; a stopping epoch
   * writes no cache; otherwise a best epoch overwrites both caches with the current
   * predictions, and any other epoch writes a cache only while it is still empty.
   * An epoch up to `WARMUP_EPOCH` never diverges.
   */
  lemma EpochCacheRule(s: AttemptState, r: EpochResult, epoch: nat, devSize: nat, step: Verdict, isBest: Verdict)
    requires devSize > 0
    ensures var end, h := Epoch(s, r, epoch, devSize, step, isBest), s.history + [r.devLoss];
      && (epoch <= WARMUP_EPOCH ==> end.outcome != Diverge)
      && (end.outcome == Diverge <==> Diverged(r.devLoss, devSize, epoch))
      && (end.outcome == Diverge ==> end.state == s)
      && (end.outcome == Stop <==> !Diverged(r.devLoss, devSize, epoch) && step(h))
      && (end.outcome != Continue ==> end.state.best == s.best)
      && (end.outcome == Continue && isBest(h) ==> end.state.best == s.cur)
      && (end.outcome == Continue && !isBest(h) ==>
            && end.state.best.dev == (if s.best.dev.None? then s.cur.dev else s.best.dev)
            && end.state.best.test == (if s.best.test.None? then s.cur.test else s.best.test))
      && (end.outcome == Continue ==> end.state.cur == Preds(r))
  {
  }

  /** The predictions of the epoch before `e` of attempt `t`, none before epoch 0. */
  function Previous(train: Trainer, t: nat, e: nat): Cache
  {
    if e == 0 then NoPreds else Preds(train(t, e - 1))
  }

  /**
   * At the start of epoch `e` of attempt `t`: the current predictions are those of
   * epoch `e - 1`, and the monitor has been given the summed (not mean) dev losses of
   * epochs `0 .. e - 1`.
   */
  predicate StartOf(s: AttemptState, train: Trainer, t: nat, e: nat)
  {
    && s.cur == Previous(train, t, e)
    && |s.history| == e
    && forall k :: 0 <= k < e ==> s.history[k] == train(t, k).devLoss
  }

  /**
   * The timing of the cache: on a best epoch `e` the caches receive the predictions
   * made at the end of epoch `e - 1` (none on epoch 0), and `es.step` receives the
   * summed dev losses of epochs `0 .. e`.
   */
  lemma EpochTiming(s: AttemptState, train: Trainer, t: nat, e: nat, devSize: nat, step: Verdict, isBest: Verdict)
    requires devSize > 0
    requires StartOf(s, train, t, e)
    ensures var r := train(t, e);
      var end, h := Epoch(s, r, e, devSize, step, isBest), s.history + [r.devLoss];
      && |h| == e + 1 && (forall k :: 0 <= k <= e ==> h[k] == train(t, k).devLoss)
      && (end.outcome == Continue && isBest(h) ==> end.state.best == Previous(train, t, e))
      && (end.outcome == Continue ==> StartOf(end.state, train, t, e + 1))
  {
  }

  predicate Filled(c: Cache)
  {
    c.dev.Some? && c.test.Some?
  }

  /** From epoch 1 on, an epoch that reaches the cache update leaves both caches filled. */
  lemma EpochFills(s: AttemptState, train: Trainer, t: nat, e: nat, devSize: nat, step: Verdict, isBest: Verdict)
    requires devSize > 0 && e >= 1
    requires StartOf(s, train, t, e)
    ensures var end := Epoch(s, train(t, e), e, devSize, step, isBest);
      (end.outcome == Continue ==> Filled(end.state.best))
      && (Filled(s.best) ==> Filled(end.state.best))
  {
  }

  /** Once filled after epoch 0, the caches stay filled for the rest of the attempt. */
  lemma {:induction false} RunEpochsFilled(s: AttemptState, train: Trainer, t: nat, e: nat, devSize: nat, step: Verdict, isBest: Verdict)
    requires devSize > 0 && e >= 1
    requires StartOf(s, train, t, e) && Filled(s.best)
    ensures Filled(RunEpochs(s, t, e, train, devSize, step, isBest).best)
    decreases MAX_EPOCH - e
  {
    if e < MAX_EPOCH {
      EpochFills(s, train, t, e, devSize, step, isBest);
      var end := Epoch(s, train(t, e), e, devSize, step, isBest);
      if end.outcome == Continue {
        EpochTiming(s, train, t, e, devSize, step, isBest);
        RunEpochsFilled(end.state, train, t, e + 1, devSize, step, isBest);
      }
    }
  }

  /** Both caches hold nothing, or both hold the predictions of one and the same epoch. */
  ghost predicate Paired(c: Cache, train: Trainer)
  {
    c == NoPreds || exists t': nat, e': nat :: e' < MAX_EPOCH && c == Preds(train(t', e'))
  }

  lemma {:induction false} EpochPaired(s: AttemptState, train: Trainer, t: nat, e: nat, devSize: nat, step: Verdict, isBest: Verdict)
    requires devSize > 0 && e < MAX_EPOCH
    requires StartOf(s, train, t, e) && Paired(s.best, train)
    ensures Paired(Epoch(s, train(t, e), e, devSize, step, isBest).state.best, train)
  {
    if e > 0 {
      assert Paired(s.cur, train) by {
        assert s.cur == Preds(train(t, e - 1));
      }
    }
  }

  /** The cache an attempt ends with pairs the dev and test predictions of one epoch. */
  lemma {:induction false} RunEpochsPaired(s: AttemptState, train: Trainer, t: nat, e: nat, devSize: nat, step: Verdict, isBest: Verdict)
    requires devSize > 0
    requires StartOf(s, train, t, e) && Paired(s.best, train)
    ensures Paired(RunEpochs(s, t, e, train, devSize, step, isBest).best, train)
    decreases MAX_EPOCH - e
  {
    if e < MAX_EPOCH {
      EpochPaired(s, train, t, e, devSize, step, isBest);
      var end := Epoch(s, train(t, e), e, devSize, step, isBest);
      if end.outcome == Continue {
        EpochTiming(s, train, t, e, devSize, step, isBest);
        RunEpochsPaired(end.state, train, t, e + 1, devSize, step, isBest);
      }
    }
  }

  lemma AttemptPaired(best: Cache, t: nat, train: Trainer, devSize: nat, step: Verdict, isBest: Verdict)
    requires devSize > 0
    requires Paired(best, train)
    ensures Paired(Attempt(train, devSize, step, isBest)(best, t).best, train)
  {
    assert StartOf(Fresh(best), train, t, 0);
    RunEpochsPaired(Fresh(best), train, t, 0, devSize, step, isBest);
  }

  /** The retry loop keeps any property of the cache that every attempt keeps. */
  lemma {:induction false} AttemptsKeep(best: Cache, t: nat, fuel: nat, run: Runner, P: Cache -> bool)
    requires forall b: Cache, t': nat :: P(b) ==> P(run(b, t').best)
    requires P(best)
    requires Attempts(best, t, fuel, run).Success?
    ensures P(Attempts(best, t, fuel, run).value)
    decreases fuel
  {
    var end := run(best, t);
    if end.diverged {
      AttemptsKeep(end.best, t + 1, fuel - 1, run, P);
    }
  }

  /**
   * A fold's result pairs the dev and the test predictions of one and the same epoch
   * (or holds none): the two caches are never filled from different epochs.
   */
  lemma FoldResultPaired(train: Trainer, devSize: nat, step: Verdict, isBest: Verdict, maxAttempts: nat)
    requires devSize > 0
    requires FoldResult(train, devSize, step, isBest, maxAttempts).Success?
    ensures Paired(FoldResult(train, devSize, step, isBest, maxAttempts).value, train)
  {
    var run := Attempt(train, devSize, step, isBest);
    var paired := (b: Cache) => Paired(b, train);
    forall b: Cache, t': nat | paired(b)
      ensures paired(run(b, t').best)
    {
      AttemptPaired(b, t', train, devSize, step, isBest);
    }
    AttemptsKeep(NoPreds, 0, maxAttempts, run, paired);
  }

  // ---------------------------------------------------------------------------
  // Where the code behaves differently from what one would expect: two concrete runs

  /**
   * The cache can still be empty when a fold ends after a completed epoch: the first
   * epoch is best (so the caches take the still-missing predictions) and the monitor
   * stops at the second.
   */
  lemma EmptyCacheAfterEarlyStop()
    ensures var train: Trainer := (t, e) => EpochResult(0.0, [1], [2]);
      FoldResult(train, 1, h => |h| >= 2, h => |h| == 1, 1) == Success(NoPreds)
  {
    var train: Trainer := (t, e) => EpochResult(0.0, [1], [2]);
    var step: Verdict, isBest: Verdict := h => |h| >= 2, h => |h| == 1;
    var s0 := Fresh(NoPreds);
    var e0 := Epoch(s0, train(0, 0), 0, 1, step, isBest);
    assert e0.outcome == Continue && e0.state.best == NoPreds;
    var e1 := Epoch(e0.state, train(0, 1), 1, 1, step, isBest);
    assert e1.outcome == Stop && e1.state.best == NoPreds;
    assert RunEpochs(e0.state, 0, 1, train, 1, step, isBest) == AttemptEnd(NoPreds, false);
  }

  /**
   * The caches survive a divergence restart: the predictions of a diverged attempt are
   * the fold's result when the next attempt never reports a best epoch.
   */
  lemma StaleCacheAfterRestart()
    ensures var train: Trainer := (t, e) => EpochResult(if t == 0 && e == 5 then 2.0 else 0.0, [t], [t]);
      FoldResult(train, 1, h => |h| == 7, h => false, 2) == Success(Preds(train(0, 0)))
  {
    var train: Trainer := (t, e) => EpochResult(if t == 0 && e == 5 then 2.0 else 0.0, [t], [t]);
    var step: Verdict, isBest: Verdict := h => |h| == 7, h => false;
    var p0 := Preds(train(0, 0));
    // Attempt 0: epoch 0 leaves the caches empty, epoch 1 fills them, epoch 5 diverges.
    var a0 := Epoch(Fresh(NoPreds), train(0, 0), 0, 1, step, isBest);
    assert a0.outcome == Continue && a0.state.best == NoPreds;
    var a1 := Epoch(a0.state, train(0, 1), 1, 1, step, isBest);
    assert a1.outcome == Continue && a1.state.best == p0;
    var a2 := Epoch(a1.state, train(0, 2), 2, 1, step, isBest);
    var a3 := Epoch(a2.state, train(0, 3), 3, 1, step, isBest);
    var a4 := Epoch(a3.state, train(0, 4), 4, 1, step, isBest);
    assert a4.outcome == Continue && a4.state.best == p0;
    var a5 := Epoch(a4.state, train(0, 5), 5, 1, step, isBest);
    assert a5.outcome == Diverge;
    assert RunEpochs(a4.state, 0, 5, train, 1, step, isBest) == AttemptEnd(p0, true);
    assert RunEpochs(a3.state, 0, 4, train, 1, step, isBest) == AttemptEnd(p0, true);
    assert RunEpochs(a2.state, 0, 3, train, 1, step, isBest) == AttemptEnd(p0, true);
    assert RunEpochs(a1.state, 0, 2, train, 1, step, isBest) == AttemptEnd(p0, true);
    assert RunEpochs(a0.state, 0, 1, train, 1, step, isBest) == AttemptEnd(p0, true);
    // Attempt 1: never best, so the caches keep attempt 0's predictions; it stops at epoch 6.
    var b0 := Epoch(Fresh(p0), train(1, 0), 0, 1, step, isBest);
    var b1 := Epoch(b0.state, train(1, 1), 1, 1, step, isBest);
    var b2 := Epoch(b1.state, train(1, 2), 2, 1, step, isBest);
    var b3 := Epoch(b2.state, train(1, 3), 3, 1, step, isBest);
    var b4 := Epoch(b3.state, train(1, 4), 4, 1, step, isBest);
    var b5 := Epoch(b4.state, train(1, 5), 5, 1, step, isBest);
    assert b5.outcome == Continue && b5.state.best == p0 && |b5.state.history| == 6;
    var b6 := Epoch(b5.state, train(1, 6), 6, 1, step, isBest);
    assert b6.outcome == Stop && b6.state.best == p0;
    assert RunEpochs(b5.state, 1, 6, train, 1, step, isBest) == AttemptEnd(p0, false);
    assert RunEpochs(b4.state, 1, 5, train, 1, step, isBest) == AttemptEnd(p0, false);
    assert RunEpochs(b3.state, 1, 4, train, 1, step, isBest) == AttemptEnd(p0, false);
    assert RunEpochs(b2.state, 1, 3, train, 1, step, isBest) == AttemptEnd(p0, false);
    assert RunEpochs(b1.state, 1, 2, train, 1, step, isBest) == AttemptEnd(p0, false);
    assert RunEpochs(b0.state, 1, 1, train, 1, step, isBest) == AttemptEnd(p0, false);
  }

  // ---------------------------------------------------------------------------
  // The loops as the source runs them

  /**
   * The other side of `StaleCacheAfterRestart`: a restart whose monitor marks its first
   * value best forgets the caches of the diverged attempt. Epoch 0 copies the still-missing
   * predictions into both caches, so the attempt ends as it would from empty caches.
   */
  lemma FirstBestForgetsStaleCache(c: Cache, t: nat, train: Trainer, devSize: nat, step: Verdict, isBest: Verdict)
    requires devSize > 0
    requires isBest([train(t, 0).devLoss]) && !step([train(t, 0).devLoss])
    ensures Epoch(Fresh(c), train(t, 0), 0, devSize, step, isBest).state.best == NoPreds
    ensures Attempt(train, devSize, step, isBest)(c, t) == Attempt(train, devSize, step, isBest)(NoPreds, t)
  {
    var r := train(t, 0);
    assert Fresh(c).history + [r.devLoss] == [r.devLoss];
    assert Epoch(Fresh(c), r, 0, devSize, step, isBest) == Epoch(Fresh(NoPreds), r, 0, devSize, step, isBest);
  }

  /** The epoch loop of one attempt, with `break` on divergence and on a stop. */
  method RunAttempt(best0: Cache, t: nat, train: Trainer, devSize: nat, step: Verdict, isBest: Verdict)
    returns (best: Cache, isDiverged: bool)
    requires devSize > 0
    ensures AttemptEnd(best, isDiverged) == Attempt(train, devSize, step, isBest)(best0, t)
  {
    var predListTestBest, finalPredBest := best0.dev, best0.test;
    var predListTest: Option<seq<int>>, finalPredListTest: Option<seq<int>> := None, None;
    var stepArgs: seq<real> := [];
    isDiverged := false;
    ghost var goal := RunEpochs(Fresh(best0), t, 0, train, devSize, step, isBest);
    for numEpoch := 0 to MAX_EPOCH
      invariant goal == RunEpochs(AttemptState(Cache(predListTestBest, finalPredBest), Cache(predListTest, finalPredListTest), stepArgs),
                                  t, numEpoch, train, devSize, step, isBest)
      invariant !isDiverged
    {
      ghost var s := AttemptState(Cache(predListTestBest, finalPredBest), Cache(predListTest, finalPredListTest), stepArgs);
      var r := train(t, numEpoch);
      var devLoss := r.devLoss;
      if devLoss / devSize as real > DIVERGENCE_LOSS && numEpoch > WARMUP_EPOCH {
        isDiverged := true;
        break;
      }
      stepArgs := stepArgs + [devLoss];
      if step(stepArgs) {
        break;
      } else {
        if isBest(stepArgs) {
          finalPredBest := finalPredListTest;
          predListTestBest := predListTest;
        } else {
          if finalPredBest.None? {
            finalPredBest := finalPredListTest;
          }
          if predListTestBest.None? {
            predListTestBest := predListTest;
          }
        }
      }
      predListTest := Some(r.devPred);
      finalPredListTest := Some(r.testPred);
      assert Epoch(s, r, numEpoch, devSize, step, isBest).state
          == AttemptState(Cache(predListTestBest, finalPredBest), Cache(predListTest, finalPredListTest), stepArgs);
    }
    best := Cache(predListTestBest, finalPredBest);
  }

  /** `one_fold`'s retry loop: a diverged attempt restarts with the caches it left. */
  method OneFold(train: Trainer, devSize: nat, step: Verdict, isBest: Verdict, maxAttempts: nat)
    returns (r: Result<Cache, RetriesExhausted>)
    requires devSize > 0
    ensures r == FoldResult(train, devSize, step, isBest, maxAttempts)
  {
    var predListTestBest: Option<seq<int>>, finalPredBest: Option<seq<int>> := None, None;
    var attempt := 0;
    ghost var run := Attempt(train, devSize, step, isBest);
    ghost var goal := FoldResult(train, devSize, step, isBest, maxAttempts);
    ghost var fuel: nat := maxAttempts;
    while attempt < maxAttempts
      invariant attempt <= maxAttempts && fuel == maxAttempts - attempt
      invariant goal == Attempts(Cache(predListTestBest, finalPredBest), attempt, fuel, run)
    {
      var before := Cache(predListTestBest, finalPredBest);
      var best, isDiverged := RunAttempt(before, attempt, train, devSize, step, isBest);
      AttemptsStep(goal, before, attempt, fuel, run, AttemptEnd(best, isDiverged));
      predListTestBest, finalPredBest := best.dev, best.test;
      assert Cache(predListTestBest, finalPredBest) == best;
      if isDiverged {
        attempt, fuel := attempt + 1, fuel - 1;
        continue;
      }
      return Success(best);
    }
    return Failure(RetriesExhausted);
  }

  /** One turn of the retry loop. */
  lemma AttemptsStep(goal: Result<Cache, RetriesExhausted>, best: Cache, t: nat, fuel: nat, run: Runner, end: AttemptEnd)
    requires fuel > 0
    requires goal == Attempts(best, t, fuel, run)
    requires run(best, t) == end
    ensures end.diverged ==> goal == Attempts(end.best, t + 1, fuel - 1, run)
    ensures !end.diverged ==> goal == Success(end.best)
  {
  }

  /** The results of folds `0 .. |trains| - 1`, one per fold, in fold order. */
  function AllFolds(trains: seq<Trainer>, devSizes: seq<nat>, step: Verdict, isBest: Verdict, maxAttempts: nat): (r: Result<seq<Cache>, RetriesExhausted>)
    requires |trains| == |devSizes| && forall k :: 0 <= k < |devSizes| ==> devSizes[k] > 0
    ensures r.Success? ==> |r.value| == |trains|
  {
    if trains == [] then Success([])
    else
      var last := |trains| - 1;
      var init := AllFolds(trains[..last], devSizes[..last], step, isBest, maxAttempts);
      var fold := FoldResult(trains[last], devSizes[last], step, isBest, maxAttempts);
      if init.Failure? then init
      else if fold.Failure? then Failure(fold.error)
      else Success(init.value + [fold.value])
  }

  /**
   * The loop over the folds: `all_fold_results` and `real_test_results` receive the
   * dev and the test cache of each fold, in fold order.
   */
  method TrainFolds(trains: seq<Trainer>, devSizes: seq<nat>, step: Verdict, isBest: Verdict, maxAttempts: nat)
    returns (r: Result<(seq<Option<seq<int>>>, seq<Option<seq<int>>>), RetriesExhausted>)
    requires |trains| == |devSizes| && forall k :: 0 <= k < |devSizes| ==> devSizes[k] > 0
    ensures var spec := AllFolds(trains, devSizes, step, isBest, maxAttempts);
      && (r.Success? <==> spec.Success?)
      && (r.Success? ==>
            && |r.value.0| == |r.value.1| == |trains|
            && forall k :: 0 <= k < |trains| ==> r.value.0[k] == spec.value[k].dev && r.value.1[k] == spec.value[k].test)
  {
    var allFoldResults: seq<Option<seq<int>>> := [];
    var realTestResults: seq<Option<seq<int>>> := [];
    for idx := 0 to |trains|
      invariant AllFolds(trains[..idx], devSizes[..idx], step, isBest, maxAttempts).Success?
      invariant var spec := AllFolds(trains[..idx], devSizes[..idx], step, isBest, maxAttempts).value;
        |allFoldResults| == |realTestResults| == idx
        && forall k :: 0 <= k < idx ==> allFoldResults[k] == spec[k].dev && realTestResults[k] == spec[k].test
    {
      assert trains[..idx + 1][..idx] == trains[..idx] && devSizes[..idx + 1][..idx] == devSizes[..idx];
      var fold := OneFold(trains[idx], devSizes[idx], step, isBest, maxAttempts);
      if fold.Failure? {
        AllFoldsFails(trains, devSizes, step, isBest, maxAttempts, idx);
        return Failure(fold.error);
      }
      allFoldResults := allFoldResults + [fold.value.dev];
      realTestResults := realTestResults + [fold.value.test];
    }
    assert trains[..|trains|] == trains && devSizes[..|devSizes|] == devSizes;
    return Success((allFoldResults, realTestResults));
  }

  /** A fold that exhausts its retries makes the whole run fail. */
  lemma {:induction false} AllFoldsFails(trains: seq<Trainer>, devSizes: seq<nat>, step: Verdict, isBest: Verdict, maxAttempts: nat, idx: nat)
    requires |trains| == |devSizes| && forall k :: 0 <= k < |devSizes| ==> devSizes[k] > 0
    requires idx < |trains|
    requires FoldResult(trains[idx], devSizes[idx], step, isBest, maxAttempts).Failure?
    ensures AllFolds(trains, devSizes, step, isBest, maxAttempts).Failure?
    decreases |trains|
  {
    var last := |trains| - 1;
    if idx < last {
      assert trains[..last][idx] == trains[idx] && devSizes[..last][idx] == devSizes[idx];
      AllFoldsFails(trains[..last], devSizes[..last], step, isBest, maxAttempts, idx);
    }
  }
}
