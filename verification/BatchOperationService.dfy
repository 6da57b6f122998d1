/** The service's record of one batch operation, with one method for each step between two awaits. */
module BatchOperationService {
  import opened Common
  import opened BatchScheduler

  class ManagedBatchOperation {
    const configs: seq<Config>
    const concurrency: nat
    ghost const targetCount: nat
    var targets: seq<Target>
    var counts: Counts
    var state: OperationState
    var aborted: bool
    var finished: bool
    var cursor: nat
    var workers: seq<Worker>
    ghost var takenBy: seq<nat>
    ghost var trace: seq<Step>

    ghost function Now(): Batch
      reads this
    {
      Batch(targets, counts, state, aborted, finished, cursor, workers, takenBy)
    }

    ghost predicate Valid()
      reads this
    {
      Now() == After(trace, targetCount, configs, concurrency)
    }

    constructor (targetCount: nat, configs: seq<Config>, concurrency: nat)
      ensures Valid() && trace == []
      ensures this.targetCount == targetCount && this.configs == configs && this.concurrency == concurrency
    {
      this.configs, this.concurrency, this.targetCount := configs, concurrency, targetCount;
      var queued := seq(targetCount, i => QueuedTarget(|configs|));
      targets, counts := queued, CountsOf(queued);
      state, aborted, finished, cursor := Active, false, false, 0;
      workers, takenBy, trace := seq(Min(concurrency, targetCount), i => Idle), [], [];
    }

    /** One pass over the targets. */
    method WithCounts()
      modifies `counts
      ensures counts == CountsOf(targets)
    {
      var completed, succeeded, failed, canceled := 0, 0, 0, 0;
      for i := 0 to |targets|
        invariant succeeded == Tally(targets[..i], Succeeded) && failed == Tally(targets[..i], Failed)
        invariant canceled == Tally(targets[..i], Canceled) && completed == succeeded + failed + canceled
      {
        assert targets[..i + 1][..i] == targets[..i];
        var target := targets[i];
        succeeded := succeeded + if target.state == Succeeded then 1 else 0;
        failed := failed + if target.state == Failed then 1 else 0;
        canceled := canceled + if target.state == Canceled then 1 else 0;
        completed := completed + if Over(target.state) then 1 else 0;
      }
      assert targets[..|targets|] == targets;
      counts := Counts(completed, succeeded, failed, canceled);
    }

    method UpdateTarget(index: nat, target: Target)
      requires index < |targets|
      modifies `targets, `counts
      ensures Now() == Save(old(Now()), index, target)
    {
      targets := targets[index := target];
      WithCounts();
    }

    /** The catch block of a target. */
    method TargetThrew(w: nat)
      requires WorksAt(Now(), w)
      modifies `targets, `counts, `workers
      ensures Now() == Abandon(old(Now()), w)
    {
      hide CountsOf;
      var index := workers[w].index;
      UpdateTarget(index, Abandoned(targets[index], aborted));
      workers := workers[w := Busy(index, AtClosing)];
    }

    /** The head of the step loop, and the end of the target after its last step. */
    method NextStep(w: nat, j: nat)
      requires WorksAt(Now(), w)
      modifies `targets, `counts, `workers
      ensures Now() == Proceed(old(Now()), w, j)
    {
      hide CountsOf, Abandoned;
      var index := workers[w].index;
      var target := targets[index];
      if j < |target.steps| {
        if aborted {
          TargetThrew(w);
          return;
        }
        UpdateTarget(index, target.(steps := target.steps[j := StepRunning]));
        workers := workers[w := Busy(index, AtCommand(j))];
      } else {
        var failed := StepFailed in target.steps;
        UpdateTarget(index, target.(state := if failed then Failed else Succeeded));
        workers := workers[w := Busy(index, AtClosing)];
      }
    }

    method WorkerTurn(w: nat, opening: Opening)
      modifies `targets, `counts, `cursor, `workers, `takenBy
      ensures Now() == TakeNext(old(Now()), w, opening)
    {
      hide CountsOf, Abandoned;
      if w >= |workers| || workers[w] != Idle { return; }
      if aborted {
        workers := workers[w := Worker.Done];
        return;
      }
      var index := cursor;
      cursor := cursor + 1;
      if index >= |targets| {
        workers := workers[w := Worker.Done];
        return;
      }
      takenBy := takenBy + [w];
      match opening {
        case BookmarkMissing => UpdateTarget(index, targets[index].(state := Failed));
        case CreateThrew => UpdateTarget(index, Abandoned(targets[index].(state := Connecting), aborted));
        case ConnectionCreated =>
          UpdateTarget(index, targets[index].(state := Connecting));
          workers := workers[w := Busy(index, AtConnection)];
      }
    }

    method ConnectionWaited(w: nat, ready: bool)
      modifies `targets, `counts, `workers
      ensures Now() == ConnectionSettled(old(Now()), w, ready)
    {
      hide CountsOf, Abandon, Proceed;
      if w < |workers| && workers[w].Busy? && workers[w].index < |targets| && workers[w].place == AtConnection {
        if !ready {
          TargetThrew(w);
        } else {
          UpdateTarget(workers[w].index, targets[workers[w].index].(state := Running));
          NextStep(w, 0);
        }
      }
    }

    method CommandReturned(w: nat, outcome: Outcome)
      modifies `targets, `counts, `workers
      ensures Now() == CommandSettled(old(Now()), w, outcome, configs)
    {
      hide CountsOf, Abandon, Proceed, SkippedFrom;
      if w >= |workers| || !workers[w].Busy? || workers[w].index >= |targets| { return; }
      if !workers[w].place.AtCommand? { return; }
      var index, i := workers[w].index, workers[w].place.step;
      var target := targets[index];
      if i >= |target.steps| || i >= |configs| { return; }
      if outcome == Threw && aborted {
        TargetThrew(w);
        return;
      }
      var updated := target.(steps := target.steps[i := if outcome == ExitedWell then StepSucceeded else StepFailed]);
      if outcome != ExitedWell && !configs[i].continueOnError {
        UpdateTarget(index, SkippedFrom(updated, i + 1));
        TargetThrew(w);
      } else if outcome != Threw && configs[i].delayed && i + 1 < |target.steps| {
        UpdateTarget(index, updated);
        if aborted {
          TargetThrew(w);
        } else {
          workers := workers[w := Busy(index, AtDelay(i))];
        }
      } else {
        UpdateTarget(index, updated);
        NextStep(w, i + 1);
      }
    }

    method DelayOver(w: nat)
      modifies `targets, `counts, `workers
      ensures Now() == DelaySettled(old(Now()), w)
    {
      hide CountsOf, Abandon, Proceed;
      if w < |workers| && workers[w].Busy? && workers[w].index < |targets| && workers[w].place.AtDelay? {
        if aborted {
          TargetThrew(w);
        } else {
          NextStep(w, workers[w].place.step + 1);
        }
      }
    }

    method ConnectionGone(w: nat)
      modifies `workers
      ensures Now() == ConnectionClosed(old(Now()), w)
    {
      if w < |workers| && workers[w].Busy? && workers[w].index < |targets| && workers[w].place == AtClosing {
        workers := workers[w := Idle];
      }
    }

    method CancelOperation()
      modifies `aborted, `state
      ensures Now() == Cancel(old(Now()))
    {
      if !finished && !aborted {
        aborted := true;
        state := Canceling;
      }
    }

    /** Closing the service aborts an operation that is active. */
    method CloseService()
      modifies `aborted
      ensures Now() == Shut(old(Now()))
    {
      if !finished {
        aborted := true;
      }
    }

    method CancelQueuedTargets()
      modifies `targets
      ensures targets == QueuedCanceled(old(targets))
    {
      hide CanceledTarget;
      for i := 0 to |targets|
        invariant |targets| == |old(targets)|
        invariant forall k :: 0 <= k < |targets| ==>
                    targets[k] == if k < i then CanceledTarget(old(targets)[k]) else old(targets)[k]
      {
        targets := targets[i := CanceledTarget(targets[i])];
      }
    }

    /** The finally block of the run, once every worker has returned. */
    method Settle()
      requires forall w :: 0 <= w < |workers| ==> workers[w] == Worker.Done
      modifies `targets, `counts, `state, `finished
      ensures Now() == Finalize(old(Now()))
    {
      hide CountsOf, QueuedCanceled;
      if finished { return; }
      if aborted {
        CancelQueuedTargets();
      }
      WithCounts();
      state := if aborted then Stopped else if AllSucceeded(targets) then Complete else Incomplete;
      finished := true;
    }

    // ----- any interleaving -----

    method Perform(step: Step)
      requires step.Finish? ==> forall w :: 0 <= w < |workers| ==> workers[w] == Worker.Done
      modifies `targets, `counts, `state, `aborted, `finished, `cursor, `workers, `takenBy
      ensures Now() == Next(old(Now()), step, configs)
    {
      hide TakeNext, ConnectionSettled, CommandSettled, DelaySettled, ConnectionClosed, Cancel, Shut, Finalize;
      match step {
        case Take(w, opening) => WorkerTurn(w, opening);
        case Connected(w, ready) => ConnectionWaited(w, ready);
        case Executed(w, outcome) => CommandReturned(w, outcome);
        case Delayed(w) => DelayOver(w);
        case Closed(w) => ConnectionGone(w);
        case Abort => CancelOperation();
        case Shutdown => CloseService();
        case Finish => Settle();
      }
    }

    /** Whatever happens next, the object stays in the state its steps lead to. */
    method Advance(step: Step)
      requires Valid()
      requires step.Finish? ==> forall w :: 0 <= w < |workers| ==> workers[w] == Worker.Done
      modifies this
      ensures Valid() && trace == old(trace) + [step]
    {
      hide After, Next;
      Perform(step);
      trace := trace + [step];
      AfterStep(old(trace), step, targetCount, configs, concurrency);
    }
  }
}
