/**
 Claiming a bootstrap run (dataruns/tasks.py): the same task may be delivered any number of times, and
 credential changes may supersede the run meanwhile. The steps of all parties interleave freely.
*/
module Bootstrap {
  import opened Prelude

  datatype Status = PENDING | RUNNING | SUCCEEDED | FAILED

  datatype DataRun = DataRun(status: Status, superseded: bool)

  /** UPDATE ... SET status = RUNNING WHERE status = PENDING: the new row and the number of rows hit. */
  function ConditionalClaim(run: DataRun): (DataRun, nat) {
    if run.status == PENDING then (run.(status := RUNNING), 1) else (run, 0)
  }

  /**
   After the claim: at work; cleared to write an outcome, or only a failure; done; or stopped because the run
   was superseded or no longer running.
  */
  datatype Phase = Working | Cleared(failing: bool) | Persisted | Stopped(status: Status)

  /** Where one delivery stands. Won: past the claim. Skipped: returned the skip result with this status. */
  datatype Worker = Delivered | Loaded(seen: Status) | Missed | Won(phase: Phase) | Skipped(status: Status)

  /** superseded remembers that a supersession has been saved, even if the flag on the row is lost again. */
  datatype World = World(run: DataRun, workers: seq<Worker>, superseding: nat, superseded: bool)

  datatype Step =
    | Deliver
    | Load(w: nat)
    | Guard(w: nat)
    | Refresh(w: nat)
    | Attach(w: nat)
    | Check(w: nat, failing: bool)
    | Persist(w: nat, success: bool)
    | SupersedeSelect
    | SupersedeSave

  predicate IsCleared(worker: Worker) {
    worker.Won? && worker.phase.Cleared?
  }

  function Set(s: World, w: nat, to: Worker): World
    requires w < |s.workers|
  {
    s.(workers := s.workers[w := to])
  }

  /** One atomic database access of one party; a step that is not due changes nothing. */
  function Apply(s: World, step: Step): World {
    match step
    case Deliver => s.(workers := s.workers + [Delivered])
    case Load(w) =>
      if w < |s.workers| && s.workers[w].Delivered? then Set(s, w, Loaded(s.run.status)) else s
    case Guard(w) =>
      if w < |s.workers| && s.workers[w].Loaded? then
        if s.workers[w].seen != PENDING then Set(s, w, Skipped(s.workers[w].seen))
        else
          var (run, claimed) := ConditionalClaim(s.run);
          Set(s, w, if claimed == 0 then Missed else Won(Working)).(run := run)
      else s
    case Refresh(w) =>
      if w < |s.workers| && s.workers[w].Missed? then Set(s, w, Skipped(s.run.status)) else s
    case Attach(w) =>
      // Metadata read earlier, without the flag, is saved back with the id of the import run.
      if w < |s.workers| && s.workers[w] == Won(Working) then s.(run := s.run.(superseded := false)) else s
    case Check(w, failing) =>
      if w < |s.workers| && s.workers[w] == Won(Working) then
        Set(s, w, Won(
          if s.run.superseded || (!failing && s.run.status != RUNNING) then Stopped(s.run.status) else Cleared(failing)))
      else s
    case Persist(w, success) =>
      if w < |s.workers| && IsCleared(s.workers[w]) then
        // The metadata written back is the copy that passed the check, so it carries no superseded flag.
        Set(s, w, Won(Persisted)).(run := DataRun(
          if success && !s.workers[w].phase.failing then SUCCEEDED else FAILED, false))
      else s
    case SupersedeSelect =>
      if s.run.status == PENDING || s.run.status == RUNNING then s.(superseding := s.superseding + 1) else s
    case SupersedeSave =>
      if s.superseding > 0 then s.(run := DataRun(FAILED, true), superseding := s.superseding - 1, superseded := true)
      else s
  }

  function Run(s: World, steps: seq<Step>): World {
    if steps == [] then s else Apply(Run(s, Front(steps)), Last(steps))
  }

  const ENQUEUED := World(DataRun(PENDING, false), [], 0, false)

  ghost predicate Owned(s: World) {
    exists w :: 0 <= w < |s.workers| && s.workers[w].Won?
  }

  /** One owner at most, none while the run is pending, one while it is running. */
  ghost predicate OwnedOnce(s: World) {
    && (forall v, w :: 0 <= v < w < |s.workers| ==> !(s.workers[v].Won? && s.workers[w].Won?))
    && (s.run.status == PENDING ==> !Owned(s))
    && (s.run.status == RUNNING ==> Owned(s))
  }

  /** Whoever skipped, or is about to, saw a run that was taken or over. */
  ghost predicate SkipsJustified(s: World) {
    forall w :: 0 <= w < |s.workers| ==> Justified(s.workers[w], s.run)
  }

  predicate Justified(worker: Worker, run: DataRun) {
    && (worker.Skipped? ==> worker.status != PENDING && run.status != PENDING)
    && (worker.Missed? ==> run.status != PENDING)
    && (worker.Loaded? && worker.seen != PENDING ==> run.status != PENDING)
  }

  ghost predicate Inv(s: World) {
    OwnedOnce(s) && SkipsJustified(s) && (s.superseded ==> s.run.status == SUCCEEDED || s.run.status == FAILED)
  }

  lemma ApplyKeepsInv(s: World, step: Step)
    requires Inv(s)
    ensures Inv(Apply(s, step))
  {
    ApplyKeepsOwnedOnce(s, step);
    ApplyKeepsSkipsJustified(s, step);
  }

  lemma ApplyKeepsSkipsJustified(s: World, step: Step)
    requires SkipsJustified(s)
    ensures SkipsJustified(Apply(s, step))
  {
  }

  lemma TwoWinnersAreOne(s: World, step: Step, v: nat, w: nat)
    requires OwnedOnce(s) && v < w < |Apply(s, step).workers|
    ensures !(Apply(s, step).workers[v].Won? && Apply(s, step).workers[w].Won?)
  {
  }

  lemma PendingIsUnowned(s: World, step: Step)
    requires OwnedOnce(s) && Apply(s, step).run.status == PENDING
    ensures !Owned(Apply(s, step))
  {
  }

  lemma RunningIsOwned(s: World, step: Step)
    requires OwnedOnce(s) && Apply(s, step).run.status == RUNNING
    ensures Owned(Apply(s, step))
  {
    var s' := Apply(s, step);
    if s.run.status == RUNNING {
      var w :| 0 <= w < |s.workers| && s.workers[w].Won?;
      assert s'.workers[w].Won?;
    } else {
      assert s'.workers[step.w].Won?;
    }
  }

  lemma ApplyKeepsOwnedOnce(s: World, step: Step)
    requires OwnedOnce(s)
    ensures OwnedOnce(Apply(s, step))
  {
    var s' := Apply(s, step);
    forall v, w | 0 <= v < w < |s'.workers| ensures !(s'.workers[v].Won? && s'.workers[w].Won?) {
      TwoWinnersAreOne(s, step, v, w);
    }
    if s'.run.status == PENDING {
      PendingIsUnowned(s, step);
    } else if s'.run.status == RUNNING {
      RunningIsOwned(s, step);
    }
  }

  lemma {:induction false} EveryRunKeepsInv(s: World, steps: seq<Step>)
    requires Inv(s)
    ensures Inv(Run(s, steps))
  {
    if steps == [] {
    } else {
      EveryRunKeepsInv(s, Front(steps));
      ApplyKeepsInv(Run(s, Front(steps)), Last(steps));
    }
  }

  /** Over all interleavings of any number of deliveries: at most one gets past the claim. */
  lemma AtMostOneClaim(steps: seq<Step>, v: nat, w: nat)
    requires v < |Run(ENQUEUED, steps).workers| && w < |Run(ENQUEUED, steps).workers|
    requires Run(ENQUEUED, steps).workers[v].Won? && Run(ENQUEUED, steps).workers[w].Won?
    ensures v == w
  {
    EveryRunKeepsInv(ENQUEUED, steps);
  }

  /** A running run has an owner, and whoever returned a skip saw the run already taken or over. */
  lemma RunningIsOwnedAndSkipsAreJustified(steps: seq<Step>)
    ensures var s := Run(ENQUEUED, steps);
      && (s.run.status == RUNNING ==> Owned(s))
      && (s.run.status == PENDING ==> !Owned(s))
      && forall w :: 0 <= w < |s.workers| && s.workers[w].Skipped? ==> s.workers[w].status != PENDING
  {
    EveryRunKeepsInv(ENQUEUED, steps);
  }

  /** Once taken or over, a run is never pending again, and an owner stays the owner. */
  lemma {:induction false} NeverPendingAgain(s: World, steps: seq<Step>)
    ensures s.run.status != PENDING ==> Run(s, steps).run.status != PENDING
    ensures |s.workers| <= |Run(s, steps).workers|
    ensures forall w :: 0 <= w < |s.workers| ==>
      && (s.workers[w].Won? ==> Run(s, steps).workers[w].Won?)
      && (s.workers[w].Skipped? ==> Run(s, steps).workers[w] == s.workers[w])
  {
    if steps == [] {
    } else {
      NeverPendingAgain(s, Front(steps));
    }
  }

  // ---------- what each step achieves ----------

  /** A pending run is running afterwards exactly by the claim of a worker that saw it pending, who owns it then. */
  lemma ClaimedIff(s: World, step: Step)
    requires s.run.status == PENDING
    ensures Apply(s, step).run.status == RUNNING <==>
      step.Guard? && step.w < |s.workers| && s.workers[step.w] == Loaded(PENDING)
    ensures Apply(s, step).run.status == RUNNING ==>
      Apply(s, step).workers[step.w] == Won(Working) && Apply(s, step).run == DataRun(RUNNING, s.run.superseded)
  {
  }

  /** A worker returns a skip exactly if it loaded a run not pending, or lost the claim, and reports what it saw. */
  lemma SkippedIff(s: World, step: Step, w: nat)
    requires w < |s.workers| && !s.workers[w].Skipped?
    ensures var after := Apply(s, step);
      && w < |after.workers|
      && (after.workers[w].Skipped? <==>
            || (step == Guard(w) && s.workers[w].Loaded? && s.workers[w].seen != PENDING)
            || (step == Refresh(w) && s.workers[w].Missed?))
      && (after.workers[w].Skipped? ==>
            after.run == s.run
            && after.workers[w].status == if step == Guard(w) then s.workers[w].seen else s.run.status)
  {
  }

  /** It loses the claim exactly if it saw the run pending and the run is not any more. */
  lemma MissedIff(s: World, step: Step, w: nat)
    requires w < |s.workers| && !s.workers[w].Missed?
    ensures w < |Apply(s, step).workers|
    ensures Apply(s, step).workers[w].Missed? <==>
      step == Guard(w) && s.workers[w] == Loaded(PENDING) && s.run.status != PENDING
  {
  }

  /** A delivery is added in its first state, and loads the status the run has. */
  lemma DeliveredAndLoaded(s: World, w: nat)
    ensures Apply(s, Deliver) == s.(workers := s.workers + [Delivered])
    ensures w < |s.workers| && s.workers[w].Delivered? ==>
      Apply(s, Load(w)) == s.(workers := s.workers[w := Loaded(s.run.status)])
  {
  }

  /** A clearance is given exactly to the owner at work on a run not superseded and, for a success, running. */
  lemma ClearedIff(s: World, step: Step, w: nat)
    requires w < |s.workers| && !IsCleared(s.workers[w])
    ensures var after := Apply(s, step).workers;
      && w < |after|
      && (IsCleared(after[w]) <==>
            && step.Check? && step.w == w && s.workers[w] == Won(Working)
            && !s.run.superseded && (step.failing || s.run.status == RUNNING))
      && (IsCleared(after[w]) ==> after[w].phase.failing == step.failing)
      && (step.Check? && step.w == w && s.workers[w] == Won(Working) && !IsCleared(after[w]) ==>
            after[w] == Won(Stopped(s.run.status)))
  {
  }

  /** Saving the import run's id writes old metadata back: a superseded flag set meanwhile is gone. */
  lemma AttachErasesTheFlag(s: World, w: nat)
    requires w < |s.workers| && s.workers[w] == Won(Working)
    ensures Apply(s, Attach(w)) == s.(run := DataRun(s.run.status, false))
  {
  }

  /** A run becomes succeeded exactly by the write of a worker with a clearance to succeed. */
  lemma SuccessRecordedIff(s: World, step: Step)
    requires s.run.status != SUCCEEDED
    ensures Apply(s, step).run.status == SUCCEEDED <==>
      step.Persist? && step.success && step.w < |s.workers| && IsCleared(s.workers[step.w])
      && !s.workers[step.w].phase.failing
  {
  }

  /** It becomes failed exactly by a cleared worker's write of a failure, or by a supersession, which flags it. */
  lemma FailureRecordedIff(s: World, step: Step)
    requires s.run.status != FAILED
    ensures Apply(s, step).run.status == FAILED <==>
      || (step.SupersedeSave? && s.superseding > 0)
      || (step.Persist? && step.w < |s.workers| && IsCleared(s.workers[step.w])
          && (!step.success || s.workers[step.w].phase.failing))
    ensures step.SupersedeSave? && Apply(s, step).run.status == FAILED ==> Apply(s, step).run.superseded
  {
  }

  function Actor(step: Step): Option<nat> {
    match step
    case Load(w) => Some(w)
    case Guard(w) => Some(w)
    case Refresh(w) => Some(w)
    case Attach(w) => Some(w)
    case Check(w, _) => Some(w)
    case Persist(w, _) => Some(w)
    case _ => None
  }

  /** The worlds differ in worker w at most. */
  ghost predicate SameBut(a: World, b: World, w: nat) {
    && a.run == b.run && a.superseding == b.superseding && a.superseded == b.superseded && |a.workers| == |b.workers|
    && forall v :: 0 <= v < |a.workers| && v != w ==> a.workers[v] == b.workers[v]
  }

  function Without(steps: seq<Step>, w: nat): seq<Step> {
    if steps == [] then []
    else Without(Front(steps), w) + if Actor(Last(steps)) == Some(w) then [] else [Last(steps)]
  }

  lemma LoserStepIsInvisible(a: World, b: World, step: Step, w: nat)
    requires SameBut(a, b, w)
    requires Actor(step) == Some(w) && (w < |a.workers| ==> !Apply(a, step).workers[w].Won?)
    ensures SameBut(Apply(a, step), b, w)
  {
  }

  lemma OthersStepAlike(a: World, b: World, step: Step, w: nat)
    requires SameBut(a, b, w) && Actor(step) != Some(w) && w < |a.workers|
    ensures SameBut(Apply(a, step), Apply(b, step), w)
  {
  }

  /** A delivery that does not win might as well not have taken place: run and other workers are the same without it. */
  lemma {:induction false} LosersAreInvisible(s: World, steps: seq<Step>, w: nat)
    requires w < |s.workers| && w < |Run(s, steps).workers| && !Run(s, steps).workers[w].Won?
    ensures SameBut(Run(s, steps), Run(s, Without(steps, w)), w)
  {
    if steps == [] {
    } else {
      var f, step := Front(steps), Last(steps);
      NeverPendingAgain(s, f);
      NeverPendingAgain(Run(s, f), [step]);
      assert Front([step]) == [] && Run(Run(s, f), [step]) == Run(s, steps);
      LosersAreInvisible(s, f, w);
      var kept := Without(f, w);
      if Actor(step) == Some(w) {
        assert kept + [] == kept;
        LoserStepIsInvisible(Run(s, f), Run(s, kept), step, w);
      } else {
        assert Front(kept + [step]) == kept;
        OthersStepAlike(Run(s, f), Run(s, kept), step, w);
      }
    }
  }

  /** Of the workers' steps only a claim takes a run out of PENDING, and it makes the claimant the owner. */
  lemma LeavingPendingMeansClaimedOrSuperseded(s: World, step: Step)
    requires s.run.status == PENDING && Apply(s, step).run.status != PENDING && Inv(s)
    ensures step.SupersedeSave?
      || (step.Guard? && step.w < |s.workers| && Apply(s, step).workers[step.w] == Won(Working)
          && Apply(s, step).run == s.run.(status := RUNNING))
  {
    assert forall w :: 0 <= w < |s.workers| ==> !s.workers[w].Won?;
  }

  // ---------- the outcome of a superseded run ----------

  predicate MaySucceed(worker: Worker) {
    IsCleared(worker) && !worker.phase.failing
  }

  /** Somebody still holds a clearance to record a success for a run that has been superseded since. */
  ghost predicate Stale(s: World) {
    s.superseded && exists w :: 0 <= w < |s.workers| && MaySucceed(s.workers[w])
  }

  /** The step records a success for a superseded run. */
  predicate Overwrites(s: World, step: Step) {
    step.Persist? && step.success && step.w < |s.workers| && MaySucceed(s.workers[step.w]) && s.superseded
  }

  lemma OverwritableIffStale(s: World)
    ensures (exists step :: Overwrites(s, step)) <==> Stale(s)
  {
    if Stale(s) {
      var w :| 0 <= w < |s.workers| && MaySucceed(s.workers[w]);
      assert Overwrites(s, Persist(w, true));
    }
  }

  /** Those are the only steps after which a superseded run says SUCCEEDED that did not say so before. */
  lemma OnlyOverwritesSucceed(s: World, step: Step)
    requires s.superseded && s.run.status != SUCCEEDED
    ensures Apply(s, step).run.status == SUCCEEDED <==> Overwrites(s, step)
  {
  }

  /** The step saves a supersession while a worker holds a clearance to record a success. */
  ghost predicate Disturbs(s: World, step: Step) {
    step.SupersedeSave? && s.superseding > 0 && exists w :: 0 <= w < |s.workers| && MaySucceed(s.workers[w])
  }

  /**
   Checking and writing are two accesses. A clearance goes stale exactly when a supersession is saved while
   it is held; a check never hands out a stale one, even if the flag on the row has been lost meanwhile.
  */
  lemma StaleIffSupersededWhileCleared(s: World, step: Step)
    requires Inv(s) && !Stale(s)
    ensures Stale(Apply(s, step)) <==> Disturbs(s, step)
  {
    if s.superseded && !step.SupersedeSave? {
      var s' := Apply(s, step);
      assert forall w :: 0 <= w < |s'.workers| && MaySucceed(s'.workers[w]) ==>
        w < |s.workers| && s'.workers[w] == s.workers[w];
    }
  }

  /** No supersession was saved while a worker held a clearance to record a success. */
  ghost predicate Undisturbed(steps: seq<Step>) {
    steps != [] ==> Undisturbed(Front(steps)) && !Disturbs(Run(ENQUEUED, Front(steps)), Last(steps))
  }

  /** After the first n steps some worker could record a success for a superseded run. */
  ghost predicate Opening(steps: seq<Step>, n: nat)
    requires n <= |steps|
  {
    exists next :: Overwrites(Run(ENQUEUED, steps[..n]), next)
  }

  /** The exact condition: that there never is such an opening means no supersession was saved at a bad moment. */
  lemma {:induction false} UndisturbedIffNoOpening(steps: seq<Step>)
    ensures Undisturbed(steps) <==> forall n :: 0 <= n <= |steps| ==> !Opening(steps, n)
  {
    assert steps[..|steps|] == steps;
    OverwritableIffStale(Run(ENQUEUED, steps));
    if steps != [] {
      var f := Front(steps);
      UndisturbedIffNoOpening(f);
      forall n | 0 <= n <= |f| ensures Opening(f, n) <==> Opening(steps, n) {
        assert f[..n] == steps[..n];
      }
      if Undisturbed(f) {
        assert f[..|f|] == f && !Opening(f, |f|);
        OverwritableIffStale(Run(ENQUEUED, f));
        EveryRunKeepsInv(ENQUEUED, f);
        StaleIffSupersededWhileCleared(Run(ENQUEUED, f), Last(steps));
        assert Opening(steps, |steps|) <==> Disturbs(Run(ENQUEUED, f), Last(steps));
      } else {
        var n :| 0 <= n <= |f| && Opening(f, n);
        assert Opening(steps, n);
      }
    }
  }

  /** A supersession was saved at a moment from which worker w has held its clearance without a break. */
  ghost predicate SupersededWhileHeld(steps: seq<Step>, w: nat) {
    && steps != [] && Holds(Run(ENQUEUED, steps), w)
    && (SupersededWhileHeld(Front(steps), w)
        || (Holds(Run(ENQUEUED, Front(steps)), w) && SavesSupersession(Run(ENQUEUED, Front(steps)), Last(steps))))
  }

  predicate Holds(s: World, w: nat) {
    w < |s.workers| && MaySucceed(s.workers[w])
  }

  predicate SavesSupersession(s: World, step: Step) {
    step.SupersedeSave? && s.superseding > 0
  }

  lemma HeldStep(s: World, step: Step, w: nat)
    requires Inv(s) && Holds(Apply(s, step), w)
    ensures Apply(s, step).superseded <==> Holds(s, w) && (s.superseded || SavesSupersession(s, step))
  {
  }

  lemma {:induction false} HolderOfSupersededRun(steps: seq<Step>, w: nat)
    ensures SupersededWhileHeld(steps, w) <==> Holds(Run(ENQUEUED, steps), w) && Run(ENQUEUED, steps).superseded
  {
    if steps == [] {
    } else {
      HolderOfSupersededRun(Front(steps), w);
      EveryRunKeepsInv(ENQUEUED, Front(steps));
      if Holds(Run(ENQUEUED, steps), w) {
        HeldStep(Run(ENQUEUED, Front(steps)), Last(steps), w);
      }
    }
  }

  /**
   What is recorded: writing a success overwrites a supersession exactly if one was saved while this very
   worker held its clearance; and such a write is what turns a superseded run into a succeeded one.
  */
  lemma SuccessOverwritesIffSupersededWhileHeld(steps: seq<Step>, next: Step)
    ensures var s := Run(ENQUEUED, steps);
      && (Overwrites(s, next) <==> next.Persist? && next.success && SupersededWhileHeld(steps, next.w))
      && (s.superseded && s.run.status != SUCCEEDED ==>
            (Apply(s, next).run.status == SUCCEEDED <==> Overwrites(s, next)))
  {
    var s := Run(ENQUEUED, steps);
    if next.Persist? {
      HolderOfSupersededRun(steps, next.w);
    }
    if s.superseded && s.run.status != SUCCEEDED {
      OnlyOverwritesSucceed(s, next);
    }
  }

  /**
   The promise that only the owner of a non-superseded run records a success for it fails:
   one delivery is cleared, the run is superseded, and the delivery still records a success.
  */
  lemma SupersededRunEndsAsSucceeded(steps: seq<Step>)
    requires steps == [Deliver, Load(0), Guard(0), Check(0, false), SupersedeSelect, SupersedeSave]
    ensures Run(ENQUEUED, steps).run == DataRun(FAILED, true)
    ensures Run(ENQUEUED, steps + [Persist(0, true)]).run == DataRun(SUCCEEDED, false)
  {
    var s1 := Apply(ENQUEUED, Deliver);
    var s2 := Apply(s1, Load(0));
    var s3 := Apply(s2, Guard(0));
    var s4 := Apply(s3, Check(0, false));
    var s5 := Apply(s4, SupersedeSelect);
    assert Run(ENQUEUED, steps[..1]) == s1;
    assert Front(steps[..2]) == steps[..1] && Run(ENQUEUED, steps[..2]) == s2;
    assert Front(steps[..3]) == steps[..2] && Run(ENQUEUED, steps[..3]) == s3;
    assert Front(steps[..4]) == steps[..3] && Run(ENQUEUED, steps[..4]) == s4;
    assert Front(steps[..5]) == steps[..4] && Run(ENQUEUED, steps[..5]) == s5;
    assert Front(steps) == steps[..5] && Front(steps + [Persist(0, true)]) == steps;
  }

  /** The stored row, as one delivery's guard and claim work on it when nobody comes between. */
  class StoredRun {
    var run: DataRun

    constructor ()
      ensures run == ENQUEUED.run
    {
      run := DataRun(PENDING, false);
    }

    /** The guard on the loaded copy, the conditional update and the refresh after a lost claim. */
    method Claim(loaded: Status) returns (worker: Worker)
      modifies this
      ensures var s := Apply(World(old(run), [Loaded(loaded)], 0, false), Guard(0));
        run == s.run && worker == Apply(s, Refresh(0)).workers[0]
    {
      if loaded != PENDING {
        return Skipped(loaded);
      }
      var row, claimed := run, 0;
      if row.status == PENDING {
        run := row.(status := RUNNING);
        claimed := 1;
      }
      if claimed == 0 {
        return Skipped(run.status);
      }
      worker := Won(Working);
    }
  }
}
