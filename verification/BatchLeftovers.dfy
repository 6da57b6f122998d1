/** Which steps a batch operation leaves queued: those of targets whose bookmark was gone, and no others. */
module BatchLeftovers {
  import opened Common
  import opened BatchScheduler

  /** Worker w is about to take the next target. */
  predicate Takes(b: Batch, w: nat) {
    w < |b.workers| && b.workers[w] == Idle && !b.aborted && b.cursor < |b.targets|
  }

  /** The target that step takes and finds without a bookmark. */
  function MissingAt(b: Batch, step: Step): set<nat> {
    if step.Take? && step.opening == BookmarkMissing && Takes(b, step.worker) then {b.cursor} else {}
  }

  /** The targets that a worker took and found without a bookmark. */
  function Missing(trace: seq<Step>, targets: nat, configs: seq<Config>, concurrency: nat): set<nat> {
    if trace == [] then {}
    else
      var init, step := trace[..|trace| - 1], trace[|trace| - 1];
      Missing(init, targets, configs, concurrency) + MissingAt(After(init, targets, configs, concurrency), step)
  }

  /** Without its bookmark a target fails untouched; any other one that is over has no queued step. */
  predicate Left(target: Target, missing: bool) {
    if missing then target.state == Failed && RanUpTo(target, 0)
    else Over(target.state) ==> StepQueued !in target.steps
  }

  ghost predicate Lefts(b: Batch, missing: set<nat>) {
    && (forall i :: i in missing ==> i < b.cursor)
    && (forall i :: 0 <= i < |b.targets| ==> Left(b.targets[i], i in missing))
  }

  lemma SavedLeft(b: Batch, index: nat, target: Target, missing: set<nat>)
    requires Lefts(b, missing) && index < |b.targets| && Left(target, index in missing)
    ensures Lefts(Save(b, index, target), missing)
  {
    hide Left, CountsOf;
  }

  lemma SameLeft(b: Batch, t: Batch, missing: set<nat>)
    requires Lefts(b, missing) && t.targets == b.targets && t.cursor >= b.cursor
    ensures Lefts(t, missing)
  {
    hide Left;
  }

  /** A target at work is not one without a bookmark. */
  lemma WorkedOn(b: Batch, w: nat, missing: set<nat>, targets: nat, steps: nat, concurrency: nat)
    requires Inv(b, targets, steps, concurrency) && Lefts(b, missing) && WorksAt(b, w)
    requires b.workers[w].place != AtClosing
    ensures b.workers[w].index !in missing
  {
    WorkerFacts(b, w, targets, steps, concurrency);
    hide Inv;
    assert Left(b.targets[b.workers[w].index], b.workers[w].index in missing);
  }

  lemma AbandonLeft(b: Batch, w: nat, target: Target, missing: set<nat>)
    requires Lefts(b, missing) && WorksAt(b, w) && b.workers[w].index !in missing
    ensures Lefts(Abandon(Save(b, b.workers[w].index, target), w), missing)
  {
    hide Lefts, CountsOf;
    var index := b.workers[w].index;
    var abandoned := Abandoned(target, b.aborted);
    SavedLeft(b, index, abandoned, missing);
    assert b.targets[index := target][index := abandoned] == b.targets[index := abandoned];
    SameLeft(Save(b, index, abandoned), Abandon(Save(b, index, target), w), missing);
  }

  lemma ProceedLeft(b: Batch, w: nat, target: Target, j: nat, missing: set<nat>)
    requires Lefts(b, missing) && WorksAt(b, w) && b.workers[w].index !in missing
    requires target.state == Running && RanUpTo(target, j)
    ensures Lefts(Proceed(Save(b, b.workers[w].index, target), w, j), missing)
  {
    hide Lefts, CountsOf, Abandon;
    var index := b.workers[w].index;
    AbandonLeft(b, w, target, missing);
    var next :=
      if j < |target.steps| then target.(steps := target.steps[j := StepRunning])
      else target.(state := if StepFailed in target.steps then Failed else Succeeded);
    SavedLeft(b, index, next, missing);
    assert b.targets[index := target][index := next] == b.targets[index := next];
    if j >= |target.steps| || !b.aborted {
      SameLeft(Save(b, index, next), Proceed(Save(b, index, target), w, j), missing);
    }
  }

  lemma TakeLeft(
    b: Batch, w: nat, opening: Opening, missing: set<nat>, targets: nat, steps: nat, concurrency: nat)
    requires Inv(b, targets, steps, concurrency) && Lefts(b, missing)
    ensures Lefts(
      TakeNext(b, w, opening), missing + if opening == BookmarkMissing && Takes(b, w) then {b.cursor} else {})
  {
    hide CountsOf;
    if Takes(b, w) {
      assert TargetOk(b, b.cursor, steps);
      hide Inv;
      var more := missing + if opening == BookmarkMissing then {b.cursor} else {};
      var t := TakeNext(b, w, opening);
      forall i | 0 <= i < |t.targets| ensures Left(t.targets[i], i in more) {
        assert Left(b.targets[i], i in missing);
      }
    } else {
      SameLeft(b, TakeNext(b, w, opening), missing);
    }
  }

  lemma ConnectedLeft(
    b: Batch, w: nat, ready: bool, missing: set<nat>, targets: nat, steps: nat, concurrency: nat)
    requires Inv(b, targets, steps, concurrency) && Lefts(b, missing)
    ensures Lefts(ConnectionSettled(b, w, ready), missing)
  {
    hide Inv, Proceed, Abandon, CountsOf, Lefts;
    if WorksAt(b, w) && b.workers[w].place == AtConnection {
      WorkerFacts(b, w, targets, steps, concurrency);
      WorkedOn(b, w, missing, targets, steps, concurrency);
      var target := b.targets[b.workers[w].index];
      if ready {
        ProceedLeft(b, w, target.(state := Running), 0, missing);
      } else {
        AbandonLeft(b, w, target, missing);
      }
    }
  }

  lemma ExecutedLeft(
    b: Batch, w: nat, outcome: Outcome, configs: seq<Config>, missing: set<nat>, targets: nat, concurrency: nat)
    requires Inv(b, targets, |configs|, concurrency) && Lefts(b, missing)
    ensures Lefts(CommandSettled(b, w, outcome, configs), missing)
  {
    hide Inv, Lefts, Save, Proceed, Abandon, Put, CountsOf, Fits, RanUpTo;
    if WorksAt(b, w) && b.workers[w].place.AtCommand? {
      WorkerFacts(b, w, targets, |configs|, concurrency);
      WorkedOn(b, w, missing, targets, |configs|, concurrency);
      var index, i := b.workers[w].index, b.workers[w].place.step;
      var target := b.targets[index];
      CommandFits(target, i);
      var result := if outcome == ExitedWell then StepSucceeded else StepFailed;
      var updated := target.(steps := target.steps[i := result]);
      RecordedRan(target, i, result);
      if outcome == Threw && b.aborted {
        AbandonLeft(b, w, target, missing);
      } else if outcome != ExitedWell && !configs[i].continueOnError {
        AbandonLeft(b, w, SkippedFrom(updated, i + 1), missing);
      } else if outcome != Threw && configs[i].delayed && i + 1 < |target.steps| {
        AbandonLeft(b, w, updated, missing);
        DelayLeft(b, w, updated, i, missing);
      } else {
        ProceedLeft(b, w, updated, i + 1, missing);
      }
    }
  }

  lemma DelayLeft(b: Batch, w: nat, target: Target, i: nat, missing: set<nat>)
    requires Lefts(b, missing) && WorksAt(b, w) && b.workers[w].index !in missing && target.state == Running
    ensures Lefts(Put(Save(b, b.workers[w].index, target), w, Busy(b.workers[w].index, AtDelay(i))), missing)
  {
    hide Lefts, CountsOf;
    var index := b.workers[w].index;
    SavedLeft(b, index, target, missing);
    SameLeft(Save(b, index, target), Put(Save(b, index, target), w, Busy(index, AtDelay(i))), missing);
  }

  lemma DelayedLeft(b: Batch, w: nat, missing: set<nat>, targets: nat, steps: nat, concurrency: nat)
    requires Inv(b, targets, steps, concurrency) && Lefts(b, missing)
    ensures Lefts(DelaySettled(b, w), missing)
  {
    hide Inv, Proceed, Abandon, CountsOf, Lefts;
    if WorksAt(b, w) && b.workers[w].place.AtDelay? {
      WorkerFacts(b, w, targets, steps, concurrency);
      WorkedOn(b, w, missing, targets, steps, concurrency);
      var target := b.targets[b.workers[w].index];
      if b.aborted {
        AbandonLeft(b, w, target, missing);
      } else {
        ProceedLeft(b, w, target, b.workers[w].place.step + 1, missing);
      }
    }
  }

  lemma UntouchedLeft(b: Batch, t: Batch, w: nat, missing: set<nat>)
    requires Lefts(b, missing) && (t == ConnectionClosed(b, w) || t == Cancel(b) || t == Shut(b))
    ensures Lefts(t, missing)
  {
    SameLeft(b, t, missing);
  }

  lemma FinalizeLeft(b: Batch, missing: set<nat>)
    requires Lefts(b, missing)
    ensures Lefts(Finalize(b), missing)
  {
    hide CountsOf;
    forall i | 0 <= i < |b.targets| ensures Left(CanceledTarget(b.targets[i]), i in missing) {
      assert Left(b.targets[i], i in missing);
    }
  }

  lemma NextLeft(b: Batch, step: Step, missing: set<nat>, targets: nat, configs: seq<Config>, concurrency: nat)
    requires Inv(b, targets, |configs|, concurrency) && Lefts(b, missing)
    ensures Lefts(Next(b, step, configs), missing + MissingAt(b, step))
  {
    hide Inv, Lefts, Takes, TakeNext, ConnectionSettled, CommandSettled, DelaySettled, ConnectionClosed;
    hide Cancel, Shut, Finalize;
    assert missing + {} == missing;
    match step {
      case Take(w, opening) => TakeLeft(b, w, opening, missing, targets, |configs|, concurrency);
      case Connected(w, ready) => ConnectedLeft(b, w, ready, missing, targets, |configs|, concurrency);
      case Executed(w, outcome) => ExecutedLeft(b, w, outcome, configs, missing, targets, concurrency);
      case Delayed(w) => DelayedLeft(b, w, missing, targets, |configs|, concurrency);
      case Closed(w) => UntouchedLeft(b, ConnectionClosed(b, w), w, missing);
      case Abort => UntouchedLeft(b, Cancel(b), 0, missing);
      case Shutdown => UntouchedLeft(b, Shut(b), 0, missing);
      case Finish => FinalizeLeft(b, missing);
    }
  }

  /** At every point of every run: a target without a bookmark has failed untouched, unlike any other. */
  lemma {:induction false} AlwaysLeft(trace: seq<Step>, targets: nat, configs: seq<Config>, concurrency: nat)
    requires concurrency > 0
    ensures Lefts(After(trace, targets, configs, concurrency), Missing(trace, targets, configs, concurrency))
    decreases |trace|
  {
    if trace == [] {
      assert Missing(trace, targets, configs, concurrency) == {};
    } else {
      hide Inv, Lefts, Next, MissingAt, Begun;
      var init, step := trace[..|trace| - 1], trace[|trace| - 1];
      AlwaysLeft(init, targets, configs, concurrency);
      Reachable(init, targets, configs, concurrency);
      NextLeft(
        After(init, targets, configs, concurrency), step, Missing(init, targets, configs, concurrency), targets,
        configs, concurrency);
    }
  }

  /** In the end a target has a queued step exactly when the worker that took it found no bookmark. */
  lemma QueuedLeftovers(trace: seq<Step>, targets: nat, configs: seq<Config>, concurrency: nat, i: nat)
    requires concurrency > 0 && configs != [] && i < targets
    requires After(trace, targets, configs, concurrency).finished
    ensures |After(trace, targets, configs, concurrency).targets| == targets
    ensures StepQueued in After(trace, targets, configs, concurrency).targets[i].steps <==>
            i in Missing(trace, targets, configs, concurrency)
  {
    AlwaysLeft(trace, targets, configs, concurrency);
    Reachable(trace, targets, configs, concurrency);
    var b := After(trace, targets, configs, concurrency);
    hide After, Missing, CountsOf;
    assert TargetOk(b, i, |configs|) && Left(b.targets[i], i in Missing(trace, targets, configs, concurrency));
    if RanUpTo(b.targets[i], 0) {
      assert b.targets[i].steps[0] == StepQueued;
    }
  }

  function OneTarget(target: Target, state: OperationState, finished: bool, cursor: nat, worker: Worker): Batch {
    Batch([target], CountsOf([target]), state, false, finished, cursor, [worker], if cursor == 0 then [] else [0])
  }

  lemma OneTargetBegun()
    ensures Begun(1, 1, 1) == OneTarget(Target(Queued, [StepQueued]), Active, false, 0, Idle)
  {
    hide CountsOf;
    assert QueuedTarget(1).steps == [StepQueued];
    assert seq(1, i => QueuedTarget(1)) == [QueuedTarget(1)];
    assert seq(1, i => Idle) == [Idle];
  }

  lemma OneTargetTaken()
    ensures TakeNext(OneTarget(Target(Queued, [StepQueued]), Active, false, 0, Idle), 0, BookmarkMissing) ==
            OneTarget(Target(Failed, [StepQueued]), Active, false, 1, Idle)
  {
    hide CountsOf;
    assert [Target(Queued, [StepQueued])][0 := Target(Failed, [StepQueued])] == [Target(Failed, [StepQueued])];
  }

  lemma OneTargetLeft()
    ensures var failed := Target(Failed, [StepQueued]);
            TakeNext(OneTarget(failed, Active, false, 1, Idle), 0, ConnectionCreated) ==
            OneTarget(failed, Active, false, 2, Done)
  {
    hide CountsOf;
    assert [Idle][0 := Done] == [Done];
  }

  lemma OneTargetFinished()
    ensures var failed := Target(Failed, [StepQueued]);
            Finalize(OneTarget(failed, Active, false, 2, Done)) == OneTarget(failed, Incomplete, true, 2, Done)
  {
    hide CountsOf;
    var b := OneTarget(Target(Failed, [StepQueued]), Active, false, 2, Done);
    assert b.targets[0].state == Failed && !AllSucceeded(b.targets);
    assert forall w :: 0 <= w < |b.workers| ==> b.workers[w] == Done;
  }

  /** An operation that ends with its only step still queued. */
  lemma LeftQueued(config: Config)
    ensures After([Take(0, BookmarkMissing), Take(0, ConnectionCreated), Finish], 1, [config], 1) ==
            OneTarget(Target(Failed, [StepQueued]), Incomplete, true, 2, Done)
  {
    var first, second := Take(0, BookmarkMissing), Take(0, ConnectionCreated);
    assert After([], 1, [config], 1) == Begun(1, 1, 1);
    OneTargetBegun();
    OneTargetTaken();
    OneTargetLeft();
    OneTargetFinished();
    AfterStep([], first, 1, [config], 1);
    AfterStep([first], second, 1, [config], 1);
    AfterStep([first, second], Finish, 1, [config], 1);
    hide After, TakeNext, Finalize, OneTarget, Begun;
    assert [] + [first] == [first];
    assert [first] + [second] == [first, second];
    assert [first, second] + [Finish] == [first, second, Finish];
  }
}
