/** Every batch operation comes to its end: no state is stuck, and only so many steps can change anything. */
module BatchProgress {
  import opened Common
  import opened BatchScheduler

  /** How far a worker is from being done with what it holds. */
  function WorkerWeight(worker: Worker, steps: nat): nat {
    match worker
    case Done => 0
    case Idle => 1
    case Busy(_, AtConnection) => 2 * steps + 4
    case Busy(_, AtCommand(i)) => if i < steps then 2 * (steps - i) + 2 else 2
    case Busy(_, AtDelay(i)) => if i < steps then 2 * (steps - i) + 1 else 2
    case Busy(_, AtClosing) => 2
  }

  function Weights(workers: seq<Worker>, steps: nat): nat {
    if workers == [] then 0
    else Weights(workers[..|workers| - 1], steps) + WorkerWeight(workers[|workers| - 1], steps)
  }

  /** What is still to be taken, at more than a worker can make of it. */
  function Remaining(b: Batch, steps: nat): nat {
    if b.cursor < |b.targets| then (|b.targets| - b.cursor) * (2 * steps + 6) else 0
  }

  function Measure(b: Batch, steps: nat): nat {
    Weights(b.workers, steps) + Remaining(b, steps) + (if b.aborted then 0 else 1) + (if b.finished then 0 else 1)
  }

  lemma {:induction false} WeightsPut(workers: seq<Worker>, w: nat, worker: Worker, steps: nat)
    requires w < |workers|
    ensures Weights(workers[w := worker], steps) + WorkerWeight(workers[w], steps) ==
            Weights(workers, steps) + WorkerWeight(worker, steps)
  {
    var n := |workers| - 1;
    if w == n {
      assert workers[w := worker][..n] == workers[..n];
    } else {
      WeightsPut(workers[..n], w, worker, steps);
      assert workers[w := worker][..n] == workers[..n][w := worker];
    }
  }

  /** One worker moved, and nothing else that counts. */
  lemma Moved(b: Batch, t: Batch, w: nat, worker: Worker, steps: nat)
    requires w < |b.workers| && t.workers == b.workers[w := worker]
    requires |t.targets| == |b.targets| && t.cursor == b.cursor && t.aborted == b.aborted && t.finished == b.finished
    requires WorkerWeight(worker, steps) < WorkerWeight(b.workers[w], steps)
    ensures Measure(t, steps) < Measure(b, steps)
  {
    hide Weights, WorkerWeight;
    WeightsPut(b.workers, w, worker, steps);
  }

  lemma AbandonShape(b: Batch, w: nat)
    requires WorksAt(b, w)
    ensures var t := Abandon(b, w);
            && t.workers == b.workers[w := Busy(b.workers[w].index, AtClosing)]
            && |t.targets| == |b.targets| && t.cursor == b.cursor && t.aborted == b.aborted && t.finished == b.finished
  {
  }

  lemma ProceedShape(b: Batch, w: nat, j: nat)
    requires WorksAt(b, w)
    ensures var t, index := Proceed(b, w, j), b.workers[w].index;
            && (t.workers == b.workers[w := Busy(index, AtClosing)]
                || (j < |b.targets[index].steps| && t.workers == b.workers[w := Busy(index, AtCommand(j))]))
            && |t.targets| == |b.targets| && t.cursor == b.cursor && t.aborted == b.aborted && t.finished == b.finished
  {
    hide CountsOf, Abandoned;
    AbandonShape(b, w);
  }

  lemma TakeDecreases(b: Batch, w: nat, opening: Opening, steps: nat)
    requires w < |b.workers| && b.workers[w] == Idle
    ensures Measure(TakeNext(b, w, opening), steps) < Measure(b, steps)
  {
    hide CountsOf, Abandoned, Weights;
    var t := TakeNext(b, w, opening);
    WeightsPut(b.workers, w, Done, steps);
    WeightsPut(b.workers, w, Busy(b.cursor, AtConnection), steps);
    if b.cursor < |b.targets| && !b.aborted {
      OneFewer(|b.targets| - b.cursor, 2 * steps + 6);
      assert t.cursor == b.cursor + 1 && |t.targets| == |b.targets|;
    }
  }

  lemma OneFewer(n: int, unit: nat)
    requires n > 0
    ensures n * unit == (n - 1) * unit + unit
  {
  }

  lemma ConnectedDecreases(b: Batch, w: nat, ready: bool, steps: nat)
    requires WorksAt(b, w) && b.workers[w].place == AtConnection && |b.targets[b.workers[w].index].steps| == steps
    ensures Measure(ConnectionSettled(b, w, ready), steps) < Measure(b, steps)
  {
    hide Measure, Proceed, Abandon, CountsOf;
    var index := b.workers[w].index;
    if ready {
      var running := Save(b, index, b.targets[index].(state := Running));
      ProceedShape(running, w, 0);
      Moved(b, Proceed(running, w, 0), w, Proceed(running, w, 0).workers[w], steps);
    } else {
      AbandonShape(b, w);
      Moved(b, Abandon(b, w), w, Busy(index, AtClosing), steps);
    }
  }

  lemma ExecutedDecreases(b: Batch, w: nat, outcome: Outcome, configs: seq<Config>)
    requires WorksAt(b, w) && b.workers[w].place.AtCommand? && b.workers[w].place.step < |configs|
    requires |b.targets[b.workers[w].index].steps| == |configs|
    ensures Measure(CommandSettled(b, w, outcome, configs), |configs|) < Measure(b, |configs|)
  {
    hide Measure, Proceed, Abandon, CountsOf, SkippedFrom;
    var index, i := b.workers[w].index, b.workers[w].place.step;
    var t := CommandSettled(b, w, outcome, configs);
    var result := if outcome == ExitedWell then StepSucceeded else StepFailed;
    var updated := b.targets[index].(steps := b.targets[index].steps[i := result]);
    AbandonShape(b, w);
    AbandonShape(Save(b, index, SkippedFrom(updated, i + 1)), w);
    AbandonShape(Save(b, index, updated), w);
    ProceedShape(Save(b, index, updated), w, i + 1);
    Moved(b, t, w, t.workers[w], |configs|);
  }

  lemma DelayedDecreases(b: Batch, w: nat, steps: nat)
    requires WorksAt(b, w) && b.workers[w].place.AtDelay? && b.workers[w].place.step < steps
    requires |b.targets[b.workers[w].index].steps| == steps
    ensures Measure(DelaySettled(b, w), steps) < Measure(b, steps)
  {
    hide Measure, Proceed, Abandon;
    var t := DelaySettled(b, w);
    AbandonShape(b, w);
    ProceedShape(b, w, b.workers[w].place.step + 1);
    Moved(b, t, w, t.workers[w], steps);
  }

  /** Whatever changes the state brings the operation nearer to its end. */
  lemma StepDecreases(b: Batch, step: Step, targets: nat, configs: seq<Config>, concurrency: nat)
    requires Inv(b, targets, |configs|, concurrency) && Next(b, step, configs) != b
    ensures Measure(Next(b, step, configs), |configs|) < Measure(b, |configs|)
  {
    hide Inv, Measure, TakeNext, Proceed, Abandon, Save, CountsOf;
    match step
    case Take(w, opening) =>
      TakeChanges(b, w, opening);
      TakeDecreases(b, w, opening, |configs|);
    case Connected(w, ready) =>
      WorkerFacts(b, w, targets, |configs|, concurrency);
      ConnectedDecreases(b, w, ready, |configs|);
    case Executed(w, outcome) =>
      WorkerFacts(b, w, targets, |configs|, concurrency);
      ExecutedDecreases(b, w, outcome, configs);
    case Delayed(w) =>
      WorkerFacts(b, w, targets, |configs|, concurrency);
      DelayedDecreases(b, w, |configs|);
    case Closed(w) => Moved(b, ConnectionClosed(b, w), w, Idle, |configs|);
    case Abort => AbortDecreases(b, Cancel(b), |configs|);
    case Shutdown => AbortDecreases(b, Shut(b), |configs|);
    case Finish => FinishDecreases(b, |configs|);
  }

  lemma TakeChanges(b: Batch, w: nat, opening: Opening)
    requires TakeNext(b, w, opening) != b
    ensures w < |b.workers| && b.workers[w] == Idle
  {
  }

  lemma AbortDecreases(b: Batch, t: Batch, steps: nat)
    requires t != b && (t == Cancel(b) || t == Shut(b))
    ensures Measure(t, steps) < Measure(b, steps)
  {
  }

  lemma FinishDecreases(b: Batch, steps: nat)
    requires Finalize(b) != b
    ensures Measure(Finalize(b), steps) < Measure(b, steps)
  {
    hide CountsOf;
  }

  /** The step that is due for a worker. */
  function Due(b: Batch, w: nat): Step
    requires w < |b.workers|
  {
    match b.workers[w]
    case Idle => Take(w, ConnectionCreated)
    case Done => Finish
    case Busy(_, AtConnection) => Connected(w, true)
    case Busy(_, AtCommand(_)) => Executed(w, ExitedWell)
    case Busy(_, AtDelay(_)) => Delayed(w)
    case Busy(_, AtClosing) => Closed(w)
  }

  lemma DueChanges(b: Batch, w: nat, targets: nat, configs: seq<Config>, concurrency: nat)
    requires Inv(b, targets, |configs|, concurrency) && w < |b.workers| && b.workers[w] != Done
    ensures Measure(Next(b, Due(b, w), configs), |configs|) < Measure(b, |configs|)
  {
    hide Measure, TakeNext, Proceed, Abandon, Save, CountsOf;
    assert WorkerOk(b, w);
    hide Inv;
    if b.workers[w] == Idle {
      TakeDecreases(b, w, ConnectionCreated, |configs|);
    } else {
      WorkerFacts(b, w, targets, |configs|, concurrency);
      match b.workers[w].place
      case AtConnection => ConnectedDecreases(b, w, true, |configs|);
      case AtCommand(_) => ExecutedDecreases(b, w, ExitedWell, configs);
      case AtDelay(_) => DelayedDecreases(b, w, |configs|);
      case AtClosing => Moved(b, ConnectionClosed(b, w), w, Idle, |configs|);
    }
  }

  /** Somebody cancels the operation, or closes the service. */
  predicate Interrupts(step: Step) {
    step == Abort || step == Shutdown
  }

  /** Nothing but an interruption could still change the operation. */
  ghost predicate Exhausted(b: Batch, configs: seq<Config>) {
    forall step :: !Interrupts(step) ==> Next(b, step, configs) == b
  }

  /** A state in which no worker and no final block can do anything is the end, canceled or not. */
  lemma NeverStuck(trace: seq<Step>, targets: nat, configs: seq<Config>, concurrency: nat)
    requires concurrency > 0
    requires Exhausted(After(trace, targets, configs, concurrency), configs)
    ensures After(trace, targets, configs, concurrency).finished
  {
    Reachable(trace, targets, configs, concurrency);
    var b := After(trace, targets, configs, concurrency);
    hide After, Inv, Measure;
    forall w | 0 <= w < |b.workers| ensures b.workers[w] == Done {
      if b.workers[w] != Done {
        DueChanges(b, w, targets, configs, concurrency);
      }
    }
    assert Next(b, Finish, configs) == b;
    assert Finalize(b) == b;
  }

  // ----- every operation ends -----

  /** A run without idle steps: each of them changes something. */
  ghost predicate Effective(trace: seq<Step>, targets: nat, configs: seq<Config>, concurrency: nat) {
    forall k :: 0 <= k < |trace| ==> ChangesAt(trace, k, targets, configs, concurrency)
  }

  ghost predicate ChangesAt(trace: seq<Step>, k: nat, targets: nat, configs: seq<Config>, concurrency: nat)
    requires k < |trace|
  {
    After(trace[..k + 1], targets, configs, concurrency) != After(trace[..k], targets, configs, concurrency)
  }

  /** However it is scheduled, an operation ends after at most so many steps that change anything. */
  lemma {:induction false} RunsEnd(trace: seq<Step>, targets: nat, configs: seq<Config>, concurrency: nat)
    requires concurrency > 0
    requires Effective(trace, targets, configs, concurrency)
    ensures |trace| + Measure(After(trace, targets, configs, concurrency), |configs|) <=
            Measure(Begun(targets, |configs|, concurrency), |configs|)
    decreases |trace|
  {
    hide Measure, Next, Begun;
    if trace != [] {
      var n := |trace| - 1;
      var init := trace[..n];
      forall k | 0 <= k < n ensures ChangesAt(init, k, targets, configs, concurrency) {
        assert ChangesAt(trace, k, targets, configs, concurrency);
        assert init[..k + 1] == trace[..k + 1] && init[..k] == trace[..k];
      }
      RunsEnd(init, targets, configs, concurrency);
      Reachable(init, targets, configs, concurrency);
      assert trace[..n + 1] == trace;
      assert ChangesAt(trace, n, targets, configs, concurrency);
      StepDecreases(After(init, targets, configs, concurrency), trace[n], targets, configs, concurrency);
    }
  }

  /**
   Every run that is carried as far as it goes ends the operation, within a number of steps known at its
   start: then all targets are over, the counts are the tallies, and success means what it says.
   */
  lemma OperationEnds(trace: seq<Step>, targets: nat, configs: seq<Config>, concurrency: nat)
    requires concurrency > 0 && Effective(trace, targets, configs, concurrency)
    requires Exhausted(After(trace, targets, configs, concurrency), configs)
    ensures |trace| <= Measure(Begun(targets, |configs|, concurrency), |configs|)
    ensures var b := After(trace, targets, configs, concurrency);
            && b.finished && |b.targets| == targets && (forall i :: 0 <= i < targets ==> Over(b.targets[i].state))
            && b.counts == CountsOf(b.targets) && b.counts.completed == targets
            && (b.state == Complete <==> !b.aborted && b.counts.succeeded == targets)
  {
    NeverStuck(trace, targets, configs, concurrency);
    RunsEnd(trace, targets, configs, concurrency);
    FinishedOperation(trace, targets, configs, concurrency);
    hide After, Measure, Exhausted, Effective;
  }

  /** The next step that changes something, while the operation is not finished; it is never an interruption. */
  lemma SomeStepDue(trace: seq<Step>, targets: nat, configs: seq<Config>, concurrency: nat) returns (step: Step)
    requires concurrency > 0 && !After(trace, targets, configs, concurrency).finished
    ensures !Interrupts(step)
    ensures var b := After(trace, targets, configs, concurrency);
            Measure(Next(b, step, configs), |configs|) < Measure(b, |configs|)
  {
    Reachable(trace, targets, configs, concurrency);
    var b := After(trace, targets, configs, concurrency);
    hide After, Inv, Measure;
    if w :| 0 <= w < |b.workers| && b.workers[w] != Done {
      DueChanges(b, w, targets, configs, concurrency);
      step := Due(b, w);
    } else {
      step := Finish;
      assert Finalize(b).finished;
      FinishDecreases(b, |configs|);
    }
  }

  /** From every reachable state the operation can be brought to its end without interrupting it. */
  lemma {:induction false} CanFinish(trace: seq<Step>, targets: nat, configs: seq<Config>, concurrency: nat)
    returns (rest: seq<Step>)
    requires concurrency > 0
    ensures forall step :: step in rest ==> !Interrupts(step)
    ensures After(trace + rest, targets, configs, concurrency).finished
    decreases Measure(After(trace, targets, configs, concurrency), |configs|)
  {
    hide Measure, Next;
    if After(trace, targets, configs, concurrency).finished {
      rest := [];
      assert trace + rest == trace;
    } else {
      var step := SomeStepDue(trace, targets, configs, concurrency);
      AfterStep(trace, step, targets, configs, concurrency);
      var more := CanFinish(trace + [step], targets, configs, concurrency);
      rest := [step] + more;
      assert trace + [step] + more == trace + rest;
    }
  }
}
