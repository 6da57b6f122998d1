/**
 A batch operation: a few workers take targets from a shared cursor and run the steps of each target
 over its own connection, until everything is done or the operation is aborted.
 */
module BatchScheduler {
  import opened Common

  datatype StepState = StepQueued | StepRunning | StepSucceeded | StepFailed | StepSkipped | StepCanceled

  datatype TargetState = Queued | Connecting | Running | Succeeded | Failed | Canceled

  datatype Target = Target(state: TargetState, steps: seq<StepState>)

  /** A configured step: whether a failure lets the target go on, and whether a delay follows. */
  datatype Config = Config(continueOnError: bool, delayed: bool)

  /** What the worker of a target waits for. */
  datatype Place = AtConnection | AtCommand(step: nat) | AtDelay(step: nat) | AtClosing

  datatype Worker = Idle | Busy(index: nat, place: Place) | Done

  datatype OperationState = Active | Canceling | Complete | Incomplete | Stopped

  datatype Counts = Counts(completed: nat, succeeded: nat, failed: nat, canceled: nat)

  datatype Batch = Batch(
    targets: seq<Target>,
    counts: Counts,
    state: OperationState,
    aborted: bool,
    finished: bool,
    cursor: nat,
    workers: seq<Worker>,
    // History: the worker that took each target, in the order they were taken.
    takenBy: seq<nat>)

  predicate Over(state: TargetState) {
    state == Succeeded || state == Failed || state == Canceled
  }

  predicate IsLive(target: Target) {
    target.state == Connecting || target.state == Running
  }

  function Tally(targets: seq<Target>, state: TargetState): nat {
    if targets == [] then 0
    else Tally(targets[..|targets| - 1], state) + if targets[|targets| - 1].state == state then 1 else 0
  }

  function TallyOver(targets: seq<Target>): nat {
    Tally(targets, Succeeded) + Tally(targets, Failed) + Tally(targets, Canceled)
  }

  function CountsOf(targets: seq<Target>): Counts {
    Counts(TallyOver(targets), Tally(targets, Succeeded), Tally(targets, Failed), Tally(targets, Canceled))
  }

  function Min(a: nat, b: nat): nat {
    if a < b then a else b
  }

  function QueuedTarget(steps: nat): Target {
    Target(Queued, seq(steps, i => StepQueued))
  }

  function Begun(targets: nat, steps: nat, concurrency: nat): Batch {
    var queued := seq(targets, i => QueuedTarget(steps));
    Batch(queued, CountsOf(queued), Active, false, false, 0, seq(Min(concurrency, targets), i => Idle), [])
  }

  // ----- targets -----

  /** Steps not reached are canceled after an abort and skipped after a failure. */
  function Abandoned(target: Target, aborted: bool): Target {
    Target(
      if aborted then Canceled else Failed,
      seq(|target.steps|, i requires 0 <= i < |target.steps| =>
        if target.steps[i] == StepQueued || target.steps[i] == StepRunning
        then (if aborted then StepCanceled else StepSkipped) else target.steps[i]))
  }

  function SkippedFrom(target: Target, from: nat): Target {
    target.(steps := seq(|target.steps|, i requires 0 <= i < |target.steps| =>
      if i >= from && target.steps[i] == StepQueued then StepSkipped else target.steps[i]))
  }

  /** A queued target of an aborted operation: all its steps are canceled. */
  function CanceledTarget(target: Target): Target {
    if target.state == Queued then Target(Canceled, seq(|target.steps|, i => StepCanceled)) else target
  }

  function QueuedCanceled(targets: seq<Target>): seq<Target> {
    seq(|targets|, i requires 0 <= i < |targets| => CanceledTarget(targets[i]))
  }

  function Save(b: Batch, index: nat, target: Target): Batch
    requires index < |b.targets|
  {
    var targets := b.targets[index := target];
    b.(targets := targets, counts := CountsOf(targets))
  }

  function Put(b: Batch, w: nat, worker: Worker): Batch
    requires w < |b.workers|
  {
    b.(workers := b.workers[w := worker])
  }

  // ----- what a worker does between two awaits -----

  predicate WorksAt(b: Batch, w: nat) {
    w < |b.workers| && b.workers[w].Busy? && b.workers[w].index < |b.targets|
  }

  /** The catch block: the target is over, its connection is closed next. */
  function Abandon(b: Batch, w: nat): Batch
    requires WorksAt(b, w)
  {
    var index := b.workers[w].index;
    Put(Save(b, index, Abandoned(b.targets[index], b.aborted)), w, Busy(index, AtClosing))
  }

  /** Start step j, or settle the target after its last step. */
  function Proceed(b: Batch, w: nat, j: nat): Batch
    requires WorksAt(b, w)
  {
    var index := b.workers[w].index;
    var target := b.targets[index];
    if j < |target.steps| then
      if b.aborted then Abandon(b, w)
      else Put(Save(b, index, target.(steps := target.steps[j := StepRunning])), w, Busy(index, AtCommand(j)))
    else
      var state := if StepFailed in target.steps then Failed else Succeeded;
      Put(Save(b, index, target.(state := state)), w, Busy(index, AtClosing))
  }

  datatype Opening = BookmarkMissing | CreateThrew | ConnectionCreated

  /** The head of the worker loop: leave, or take the next target. */
  function TakeNext(b: Batch, w: nat, opening: Opening): Batch {
    if w >= |b.workers| || b.workers[w] != Idle then b
    else if b.aborted then Put(b, w, Done)
    else
      var index := b.cursor;
      var moved := b.(cursor := b.cursor + 1);
      if index >= |b.targets| then Put(moved, w, Done)
      else
        var taken := moved.(takenBy := b.takenBy + [w]);
        match opening
        case BookmarkMissing => Save(taken, index, b.targets[index].(state := Failed))
        case CreateThrew =>
          Save(taken, index, Abandoned(b.targets[index].(state := Connecting), b.aborted))
        case ConnectionCreated =>
          Put(Save(taken, index, b.targets[index].(state := Connecting)), w, Busy(index, AtConnection))
  }

  function ConnectionSettled(b: Batch, w: nat, ready: bool): Batch {
    if !WorksAt(b, w) || b.workers[w].place != AtConnection then b
    else if !ready then Abandon(b, w)
    else
      var index := b.workers[w].index;
      Proceed(Save(b, index, b.targets[index].(state := Running)), w, 0)
  }

  datatype Outcome = ExitedWell | ExitedBadly | Threw

  function CommandSettled(b: Batch, w: nat, outcome: Outcome, configs: seq<Config>): Batch {
    if !WorksAt(b, w) || !b.workers[w].place.AtCommand? then b
    else
      var index, i := b.workers[w].index, b.workers[w].place.step;
      var target := b.targets[index];
      if i >= |target.steps| || i >= |configs| then b
      else if outcome == Threw && b.aborted then Abandon(b, w)
      else
        var result := if outcome == ExitedWell then StepSucceeded else StepFailed;
        var updated := target.(steps := target.steps[i := result]);
        if outcome != ExitedWell && !configs[i].continueOnError then
          Abandon(Save(b, index, SkippedFrom(updated, i + 1)), w)
        else if outcome != Threw && configs[i].delayed && i + 1 < |target.steps| then
          if b.aborted then Abandon(Save(b, index, updated), w)
          else Put(Save(b, index, updated), w, Busy(index, AtDelay(i)))
        else Proceed(Save(b, index, updated), w, i + 1)
  }

  /** The delay after a step; it only fails when the operation is aborted. */
  function DelaySettled(b: Batch, w: nat): Batch {
    if !WorksAt(b, w) || !b.workers[w].place.AtDelay? then b
    else if b.aborted then Abandon(b, w)
    else Proceed(b, w, b.workers[w].place.step + 1)
  }

  function ConnectionClosed(b: Batch, w: nat): Batch {
    if !WorksAt(b, w) || b.workers[w].place != AtClosing then b else Put(b, w, Idle)
  }

  // ----- the operation -----

  function Cancel(b: Batch): Batch {
    if b.finished || b.aborted then b else b.(aborted := true, state := Canceling)
  }

  /** Closing the service aborts the operation as well, and leaves its state as it is. */
  function Shut(b: Batch): Batch {
    if b.finished then b else b.(aborted := true)
  }

  predicate AllSucceeded(targets: seq<Target>) {
    forall i :: 0 <= i < |targets| ==> targets[i].state == Succeeded
  }

  /** All workers have returned: settle the operation. */
  function Finalize(b: Batch): Batch {
    if b.finished || exists w :: 0 <= w < |b.workers| && b.workers[w] != Done then b
    else
      var targets := if b.aborted then QueuedCanceled(b.targets) else b.targets;
      var state :=
        if b.aborted then Stopped
        else if AllSucceeded(targets) then Complete
        else Incomplete;
      b.(targets := targets, counts := CountsOf(targets), state := state, finished := true)
  }

  datatype Step =
    | Take(worker: nat, opening: Opening) | Connected(worker: nat, ready: bool)
    | Executed(worker: nat, outcome: Outcome) | Delayed(worker: nat) | Closed(worker: nat)
    | Abort | Shutdown | Finish

  function Next(b: Batch, step: Step, configs: seq<Config>): Batch {
    match step
    case Take(w, opening) => TakeNext(b, w, opening)
    case Connected(w, ready) => ConnectionSettled(b, w, ready)
    case Executed(w, outcome) => CommandSettled(b, w, outcome, configs)
    case Delayed(w) => DelaySettled(b, w)
    case Closed(w) => ConnectionClosed(b, w)
    case Abort => Cancel(b)
    case Shutdown => Shut(b)
    case Finish => Finalize(b)
  }

  function After(trace: seq<Step>, targets: nat, configs: seq<Config>, concurrency: nat): Batch {
    if trace == [] then Begun(targets, |configs|, concurrency)
    else Next(After(trace[..|trace| - 1], targets, configs, concurrency), trace[|trace| - 1], configs)
  }

  // ----- what holds in every reachable state -----

  /** Steps before j have run, later ones are untouched. */
  predicate RanUpTo(target: Target, j: nat) {
    && j <= |target.steps|
    && (forall i :: 0 <= i < j ==> target.steps[i] == StepSucceeded || target.steps[i] == StepFailed)
    && (forall i :: j <= i < |target.steps| ==> target.steps[i] == StepQueued)
  }

  /** How a target looks while its worker is at a given place. */
  predicate Fits(target: Target, place: Place) {
    match place
    case AtConnection => target.state == Connecting && RanUpTo(target, 0)
    case AtCommand(i) =>
      target.state == Running && i < |target.steps| && target.steps[i] == StepRunning
      && RanUpTo(target.(steps := target.steps[i := StepQueued]), i)
    case AtDelay(i) => target.state == Running && i < |target.steps| && RanUpTo(target, i + 1)
    case AtClosing => Over(target.state)
  }

  /**
   A target that is over has no step left, and succeeded only if all its steps did. The exception is a
   target whose bookmark was gone: it fails with its steps untouched.
   */
  predicate Settled(target: Target) {
    Over(target.state) ==>
      || (target.state == Failed && RanUpTo(target, 0))
      || ((forall i :: 0 <= i < |target.steps| ==> target.steps[i] != StepQueued && target.steps[i] != StepRunning)
          && (target.state == Succeeded ==> forall i :: 0 <= i < |target.steps| ==> target.steps[i] == StepSucceeded))
  }

  /** A worker is at work on the target it took, which looks the part. */
  predicate WorkerOk(b: Batch, w: nat)
    requires w < |b.workers|
  {
    match b.workers[w]
    case Idle => true
    case Busy(index, place) =>
      index < |b.takenBy| <= |b.targets| && b.takenBy[index] == w && Fits(b.targets[index], place)
    case Done => b.aborted || b.cursor >= |b.targets|
  }

  /** A target is queued until it is taken, and then over or in the hands of the worker that took it. */
  predicate TargetOk(b: Batch, i: nat, steps: nat)
    requires i < |b.targets|
  {
    && |b.targets[i].steps| == steps && Settled(b.targets[i])
    && (b.finished || i < |b.takenBy| || (b.targets[i].state == Queued && RanUpTo(b.targets[i], 0)))
    && (i < |b.takenBy| ==>
          Over(b.targets[i].state) ||
          (b.takenBy[i] < |b.workers| && b.workers[b.takenBy[i]].Busy? && b.workers[b.takenBy[i]].index == i))
  }

  ghost predicate Inv(b: Batch, targets: nat, steps: nat, concurrency: nat) {
    && |b.targets| == targets && |b.workers| == Min(concurrency, targets)
    && |b.takenBy| == Min(b.cursor, targets)
    && b.counts == CountsOf(b.targets)
    && (forall w :: 0 <= w < |b.workers| ==> WorkerOk(b, w))
    && (forall i :: 0 <= i < |b.targets| ==> TargetOk(b, i, steps))
    && (b.finished ==> FinalOk(b))
  }

  /** What the end of an operation promises. */
  ghost predicate FinalOk(b: Batch) {
    && (forall w :: 0 <= w < |b.workers| ==> b.workers[w] == Done)
    && (forall i :: 0 <= i < |b.targets| ==> Over(b.targets[i].state))
    && (b.state == Stopped <==> b.aborted)
    && (b.state == Complete <==> !b.aborted && AllSucceeded(b.targets))
    && (b.state == Stopped || b.state == Complete || b.state == Incomplete)
  }

  /** The worker of a target replaces it and moves on. */
  lemma WorkKept(b: Batch, w: nat, target: Target, place: Place, targets: nat, steps: nat, concurrency: nat)
    requires Inv(b, targets, steps, concurrency) && WorksAt(b, w) && !b.finished
    requires |target.steps| == steps && Settled(target) && Fits(target, place)
    ensures Inv(
      Put(Save(b, b.workers[w].index, target), w, Busy(b.workers[w].index, place)), targets, steps, concurrency)
  {
    hide Fits, Settled, CountsOf;
    var index := b.workers[w].index;
    var t := Put(Save(b, index, target), w, Busy(index, place));
    assert WorkerOk(b, w);
    forall v | 0 <= v < |t.workers| ensures WorkerOk(t, v) {
      assert WorkerOk(b, v);
    }
    forall i | 0 <= i < |t.targets| ensures TargetOk(t, i, steps) {
      assert TargetOk(b, i, steps);
    }
  }

  lemma AbandonedSettled(target: Target, aborted: bool)
    ensures Settled(Abandoned(target, aborted)) && Fits(Abandoned(target, aborted), AtClosing)
  {
  }

  lemma AbandonKept(b: Batch, w: nat, target: Target, targets: nat, steps: nat, concurrency: nat)
    requires Inv(b, targets, steps, concurrency) && WorksAt(b, w) && !b.finished && |target.steps| == steps
    ensures Inv(Abandon(Save(b, b.workers[w].index, target), w), targets, steps, concurrency)
  {
    var index := b.workers[w].index;
    AbandonedSettled(target, b.aborted);
    WorkKept(b, w, Abandoned(target, b.aborted), AtClosing, targets, steps, concurrency);
    assert b.targets[index := target][index := Abandoned(target, b.aborted)] ==
           b.targets[index := Abandoned(target, b.aborted)];
  }

  /** A target whose first j steps have run goes on with step j, or is over. */
  lemma ProceedKept(b: Batch, w: nat, target: Target, j: nat, targets: nat, steps: nat, concurrency: nat)
    requires Inv(b, targets, steps, concurrency) && WorksAt(b, w) && !b.finished
    requires |target.steps| == steps && target.state == Running && RanUpTo(target, j)
    ensures Inv(Proceed(Save(b, b.workers[w].index, target), w, j), targets, steps, concurrency)
  {
    var index := b.workers[w].index;
    if j < |target.steps| {
      if b.aborted {
        AbandonKept(b, w, target, targets, steps, concurrency);
      } else {
        var next := target.(steps := target.steps[j := StepRunning]);
        assert next.steps[j := StepQueued] == target.steps;
        WorkKept(b, w, next, AtCommand(j), targets, steps, concurrency);
        assert b.targets[index := target][index := next] == b.targets[index := next];
      }
    } else {
      var next := target.(state := if StepFailed in target.steps then Failed else Succeeded);
      WorkKept(b, w, next, AtClosing, targets, steps, concurrency);
      assert b.targets[index := target][index := next] == b.targets[index := next];
    }
  }

  lemma SaveSame(b: Batch, index: nat)
    requires index < |b.targets| && b.counts == CountsOf(b.targets)
    ensures Save(b, index, b.targets[index]) == b
  {
    assert b.targets[index := b.targets[index]] == b.targets;
  }

  /** Taking a target: worker w may keep it, or see it fail at once. */
  lemma TakenKept(b: Batch, w: nat, target: Target, worker: Worker, targets: nat, steps: nat, concurrency: nat)
    requires Inv(b, targets, steps, concurrency) && !b.finished
    requires w < |b.workers| && b.workers[w] == Idle && b.cursor < |b.targets|
    requires |target.steps| == steps && Settled(target)
    requires (worker == Idle && Over(target.state))
             || (worker == Busy(b.cursor, AtConnection) && Fits(target, AtConnection))
    ensures Inv(
      Put(Save(b.(cursor := b.cursor + 1, takenBy := b.takenBy + [w]), b.cursor, target), w, worker),
      targets, steps, concurrency)
  {
    hide Fits, Settled, CountsOf;
    var t := Put(Save(b.(cursor := b.cursor + 1, takenBy := b.takenBy + [w]), b.cursor, target), w, worker);
    forall v | 0 <= v < |t.workers| ensures WorkerOk(t, v) {
      assert WorkerOk(b, v);
    }
    forall i | 0 <= i < |t.targets| ensures TargetOk(t, i, steps) {
      assert TargetOk(b, i, steps);
    }
  }

  lemma WorkerKept(b: Batch, t: Batch, w: nat, worker: Worker, targets: nat, steps: nat, concurrency: nat)
    requires Inv(b, targets, steps, concurrency) && !b.finished && w < |b.workers|
    requires worker == Idle || (worker == Done && (b.aborted || t.cursor > |b.targets|))
    requires b.workers[w] == Idle || (b.workers[w].Busy? && b.workers[w].place == AtClosing)
    requires t == Put(b.(cursor := t.cursor), w, worker)
    requires t.cursor == b.cursor || (t.cursor == b.cursor + 1 && b.cursor >= |b.targets|)
    ensures Inv(t, targets, steps, concurrency)
  {
    hide Settled, CountsOf;
    assert WorkerOk(b, w);
    forall v | 0 <= v < |t.workers| ensures WorkerOk(t, v) {
      assert WorkerOk(b, v);
    }
    forall i | 0 <= i < |t.targets| ensures TargetOk(t, i, steps) {
      assert TargetOk(b, i, steps);
    }
  }

  lemma TakeKept(b: Batch, w: nat, opening: Opening, targets: nat, steps: nat, concurrency: nat)
    requires Inv(b, targets, steps, concurrency)
    ensures Inv(TakeNext(b, w, opening), targets, steps, concurrency)
  {
    if w < |b.workers| && b.workers[w] == Idle {
      assert !b.finished;
      if b.aborted || b.cursor >= |b.targets| {
        WorkerKept(b, TakeNext(b, w, opening), w, Done, targets, steps, concurrency);
      } else {
        var target := b.targets[b.cursor];
        assert TargetOk(b, b.cursor, steps);
        match opening
        case BookmarkMissing =>
          TakenKept(b, w, target.(state := Failed), Idle, targets, steps, concurrency);
          assert b.workers[w := Idle] == b.workers;
        case CreateThrew =>
          AbandonedSettled(target.(state := Connecting), b.aborted);
          TakenKept(b, w, Abandoned(target.(state := Connecting), b.aborted), Idle, targets, steps, concurrency);
          assert b.workers[w := Idle] == b.workers;
        case ConnectionCreated =>
          TakenKept(b, w, target.(state := Connecting), Busy(b.cursor, AtConnection), targets, steps, concurrency);
      }
    }
  }

  lemma ConnectedKept(b: Batch, w: nat, ready: bool, targets: nat, steps: nat, concurrency: nat)
    requires Inv(b, targets, steps, concurrency)
    ensures Inv(ConnectionSettled(b, w, ready), targets, steps, concurrency)
  {
    if WorksAt(b, w) && b.workers[w].place == AtConnection {
      var index := b.workers[w].index;
      assert WorkerOk(b, w) && TargetOk(b, index, steps);
      if ready {
        ProceedKept(b, w, b.targets[index].(state := Running), 0, targets, steps, concurrency);
      } else {
        AbandonKept(b, w, b.targets[index], targets, steps, concurrency);
        SaveSame(b, index);
      }
    }
  }

  /** The result of step i, recorded. */
  lemma RecordedRan(target: Target, i: nat, result: StepState)
    requires Fits(target, AtCommand(i)) && (result == StepSucceeded || result == StepFailed)
    ensures RanUpTo(target.(steps := target.steps[i := result]), i + 1)
  {
    var before := target.(steps := target.steps[i := StepQueued]);
    var after := target.(steps := target.steps[i := result]);
    assert forall k :: 0 <= k < |after.steps| && k != i ==> after.steps[k] == before.steps[k];
  }

  lemma WorkerFacts(b: Batch, w: nat, targets: nat, steps: nat, concurrency: nat)
    requires Inv(b, targets, steps, concurrency) && WorksAt(b, w)
    ensures !b.finished && |b.targets[b.workers[w].index].steps| == steps
    ensures Fits(b.targets[b.workers[w].index], b.workers[w].place) && Settled(b.targets[b.workers[w].index])
    ensures Save(b, b.workers[w].index, b.targets[b.workers[w].index]) == b
  {
    hide Fits, Settled, CountsOf;
    assert WorkerOk(b, w) && TargetOk(b, b.workers[w].index, steps);
    SaveSame(b, b.workers[w].index);
  }

  lemma ExecutedKept(
    b: Batch, w: nat, outcome: Outcome, configs: seq<Config>, targets: nat, concurrency: nat)
    requires Inv(b, targets, |configs|, concurrency)
    ensures Inv(CommandSettled(b, w, outcome, configs), targets, |configs|, concurrency)
  {
    hide Inv, Save, Proceed, Abandon, Put, CountsOf;
    if WorksAt(b, w) && b.workers[w].place.AtCommand? {
      WorkerFacts(b, w, targets, |configs|, concurrency);
      var index, i := b.workers[w].index, b.workers[w].place.step;
      var target := b.targets[index];
      if i < |target.steps| {
        var result := if outcome == ExitedWell then StepSucceeded else StepFailed;
        var updated := target.(steps := target.steps[i := result]);
        RecordedRan(target, i, result);
        if outcome == Threw && b.aborted {
          AbandonKept(b, w, target, targets, |configs|, concurrency);
        } else if outcome != ExitedWell && !configs[i].continueOnError {
          AbandonKept(b, w, SkippedFrom(updated, i + 1), targets, |configs|, concurrency);
        } else if outcome != Threw && configs[i].delayed && i + 1 < |target.steps| {
          if b.aborted {
            AbandonKept(b, w, updated, targets, |configs|, concurrency);
          } else {
            WorkKept(b, w, updated, AtDelay(i), targets, |configs|, concurrency);
          }
        } else {
          ProceedKept(b, w, updated, i + 1, targets, |configs|, concurrency);
        }
      }
    }
  }

  lemma DelayedKept(b: Batch, w: nat, targets: nat, steps: nat, concurrency: nat)
    requires Inv(b, targets, steps, concurrency)
    ensures Inv(DelaySettled(b, w), targets, steps, concurrency)
  {
    if WorksAt(b, w) && b.workers[w].place.AtDelay? {
      var index := b.workers[w].index;
      assert WorkerOk(b, w) && TargetOk(b, index, steps);
      SaveSame(b, index);
      if b.aborted {
        AbandonKept(b, w, b.targets[index], targets, steps, concurrency);
      } else {
        ProceedKept(b, w, b.targets[index], b.workers[w].place.step + 1, targets, steps, concurrency);
      }
    }
  }

  lemma ClosedKept(b: Batch, w: nat, targets: nat, steps: nat, concurrency: nat)
    requires Inv(b, targets, steps, concurrency)
    ensures Inv(ConnectionClosed(b, w), targets, steps, concurrency)
  {
    if WorksAt(b, w) && b.workers[w].place == AtClosing {
      assert WorkerOk(b, w);
      WorkerKept(b, ConnectionClosed(b, w), w, Idle, targets, steps, concurrency);
    }
  }

  lemma CancelKept(b: Batch, t: Batch, targets: nat, steps: nat, concurrency: nat)
    requires Inv(b, targets, steps, concurrency) && (t == Cancel(b) || t == Shut(b))
    ensures Inv(t, targets, steps, concurrency)
  {
    hide Settled, CountsOf, Fits;
    forall v | 0 <= v < |t.workers| ensures WorkerOk(t, v) {
      assert WorkerOk(b, v);
    }
    forall i | 0 <= i < |t.targets| ensures TargetOk(t, i, steps) {
      assert TargetOk(b, i, steps);
    }
  }

  lemma FinalizeKept(b: Batch, targets: nat, steps: nat, concurrency: nat)
    requires Inv(b, targets, steps, concurrency) && concurrency > 0
    ensures Inv(Finalize(b), targets, steps, concurrency)
  {
    hide CountsOf;
    var t := Finalize(b);
    if !b.finished && forall w :: 0 <= w < |b.workers| ==> b.workers[w] == Done {
      if targets > 0 {
        assert WorkerOk(b, 0);
      }
      forall i | 0 <= i < |t.targets| ensures TargetOk(t, i, steps) && Over(t.targets[i].state) {
        assert TargetOk(b, i, steps);
      }
      forall v | 0 <= v < |t.workers| ensures WorkerOk(t, v) {
        assert WorkerOk(b, v);
      }
    }
  }

  lemma AfterStep(trace: seq<Step>, step: Step, targets: nat, configs: seq<Config>, concurrency: nat)
    ensures After(trace + [step], targets, configs, concurrency) ==
            Next(After(trace, targets, configs, concurrency), step, configs)
  {
    hide Next;
    assert (trace + [step])[..|trace|] == trace;
  }

  lemma {:induction false} Reachable(trace: seq<Step>, targets: nat, configs: seq<Config>, concurrency: nat)
    requires concurrency > 0
    ensures Inv(After(trace, targets, configs, concurrency), targets, |configs|, concurrency)
  {
    if trace != [] {
      var init, step := trace[..|trace| - 1], trace[|trace| - 1];
      Reachable(init, targets, configs, concurrency);
      var b := After(init, targets, configs, concurrency);
      hide Inv, TakeNext, ConnectionSettled, CommandSettled, DelaySettled, ConnectionClosed, Cancel, Shut, Finalize;
      match step {
        case Take(w, opening) => TakeKept(b, w, opening, targets, |configs|, concurrency);
        case Connected(w, ready) => ConnectedKept(b, w, ready, targets, |configs|, concurrency);
        case Executed(w, outcome) => ExecutedKept(b, w, outcome, configs, targets, concurrency);
        case Delayed(w) => DelayedKept(b, w, targets, |configs|, concurrency);
        case Closed(w) => ClosedKept(b, w, targets, |configs|, concurrency);
        case Abort => CancelKept(b, Cancel(b), targets, |configs|, concurrency);
        case Shutdown => CancelKept(b, Shut(b), targets, |configs|, concurrency);
        case Finish => FinalizeKept(b, targets, |configs|, concurrency);
      }
    }
  }

  // ----- what every run promises -----

  /** Every target below the cursor was taken by exactly one worker, and no other was. */
  lemma TakenOnce(trace: seq<Step>, targets: nat, configs: seq<Config>, concurrency: nat)
    requires concurrency > 0
    ensures var b := After(trace, targets, configs, concurrency);
            && |b.takenBy| == Min(b.cursor, targets)
            && (forall w :: 0 <= w < |b.workers| && b.workers[w].Busy? ==>
                  b.workers[w].index < |b.takenBy| && b.takenBy[b.workers[w].index] == w)
            && (forall v, w :: 0 <= v < w < |b.workers| && b.workers[v].Busy? && b.workers[w].Busy? ==>
                  b.workers[v].index != b.workers[w].index)
  {
    Reachable(trace, targets, configs, concurrency);
    var b := After(trace, targets, configs, concurrency);
    hide After, CountsOf;
    forall w | 0 <= w < |b.workers| && b.workers[w].Busy?
      ensures b.workers[w].index < |b.takenBy| && b.takenBy[b.workers[w].index] == w
    {
      assert WorkerOk(b, w);
    }
  }

  function LiveTargets(b: Batch): set<nat> {
    set i | 0 <= i < |b.targets| && IsLive(b.targets[i])
  }

  function BusyIndices(workers: seq<Worker>): set<nat> {
    if workers == [] then {}
    else
      var last := workers[|workers| - 1];
      BusyIndices(workers[..|workers| - 1]) + if last.Busy? then {last.index} else {}
  }

  lemma {:induction false} FewBusy(workers: seq<Worker>)
    ensures |BusyIndices(workers)| <= |workers|
    ensures forall w :: 0 <= w < |workers| && workers[w].Busy? ==> workers[w].index in BusyIndices(workers)
  {
    if workers != [] {
      FewBusy(workers[..|workers| - 1]);
    }
  }

  /** At most `concurrency` targets are connecting or running at any time. */
  lemma LiveWithinConcurrency(trace: seq<Step>, targets: nat, configs: seq<Config>, concurrency: nat)
    requires concurrency > 0
    ensures |LiveTargets(After(trace, targets, configs, concurrency))| <= concurrency
  {
    Reachable(trace, targets, configs, concurrency);
    var b := After(trace, targets, configs, concurrency);
    hide After, CountsOf, Settled;
    FewBusy(b.workers);
    forall i | i in LiveTargets(b) ensures i in BusyIndices(b.workers) {
      assert TargetOk(b, i, |configs|);
    }
    SubsetSize(LiveTargets(b), BusyIndices(b.workers));
  }

  /** The end: every target is over, the counts are the tallies, and success means exactly what it says. */
  lemma FinishedOperation(trace: seq<Step>, targets: nat, configs: seq<Config>, concurrency: nat)
    requires concurrency > 0 && After(trace, targets, configs, concurrency).finished
    ensures var b := After(trace, targets, configs, concurrency);
            && |b.targets| == targets
            && (forall i :: 0 <= i < targets ==> Over(b.targets[i].state) && Settled(b.targets[i]))
            && b.counts == CountsOf(b.targets) && b.counts.completed == targets
            && (b.state == Complete <==> !b.aborted && b.counts.succeeded == targets)
            && (b.state == Stopped <==> b.aborted)
  {
    Reachable(trace, targets, configs, concurrency);
    var b := After(trace, targets, configs, concurrency);
    hide After, Settled;
    forall i | 0 <= i < targets ensures Settled(b.targets[i]) {
      assert TargetOk(b, i, |configs|);
    }
    TallyAll(b.targets);
  }

  // ----- the rules for the steps of a target -----

  /** A failed step that does not let the target go on is followed by skipped steps only. */
  predicate Stops(target: Target, configs: seq<Config>) {
    forall i, j :: 0 <= i < j < |target.steps| && i < |configs| && target.steps[i] == StepFailed ==>
                     configs[i].continueOnError || target.steps[j] == StepSkipped
  }

  /** Nothing is canceled unless the operation was aborted. */
  predicate CanceledByAbort(target: Target, aborted: bool) {
    target.state == Canceled || StepCanceled in target.steps ==> aborted
  }

  predicate Rule(target: Target, configs: seq<Config>, aborted: bool) {
    Stops(target, configs) && CanceledByAbort(target, aborted)
  }

  ghost predicate Rules(b: Batch, configs: seq<Config>) {
    forall i :: 0 <= i < |b.targets| ==> Rule(b.targets[i], configs, b.aborted)
  }

  lemma AbandonedRule(target: Target, configs: seq<Config>, aborted: bool)
    requires Rule(target, configs, aborted)
    ensures Rule(Abandoned(target, aborted), configs, aborted)
  {
  }

  lemma SavedRules(b: Batch, index: nat, target: Target, configs: seq<Config>)
    requires Rules(b, configs) && index < |b.targets| && Rule(target, configs, b.aborted)
    ensures Rules(Save(b, index, target), configs) && |Save(b, index, target).workers| == |b.workers|
  {
    hide Rule, CountsOf;
  }

  lemma AbandonRules(b: Batch, w: nat, target: Target, configs: seq<Config>)
    requires Rules(b, configs) && WorksAt(b, w) && Rule(target, configs, b.aborted)
    ensures Rules(Abandon(Save(b, b.workers[w].index, target), w), configs)
  {
    hide Rule, CountsOf, Abandoned;
    AbandonedRule(target, configs, b.aborted);
  }

  /** While steps are still queued, no failure has stopped the target. */
  lemma ProceedRules(b: Batch, w: nat, target: Target, j: nat, configs: seq<Config>)
    requires Rules(b, configs) && WorksAt(b, w) && Rule(target, configs, b.aborted)
    requires target.state == Running && RanUpTo(target, j)
    ensures Rules(Proceed(Save(b, b.workers[w].index, target), w, j), configs)
  {
    hide Rules, CountsOf, Abandon;
    var index := b.workers[w].index;
    AbandonRules(b, w, target, configs);
    if j < |target.steps| {
      var next := target.(steps := target.steps[j := StepRunning]);
      SavedRules(b, index, next, configs);
      assert b.targets[index := target][index := next] == b.targets[index := next];
      SameRules(Save(b, index, next), Put(Save(b, index, next), w, Busy(index, AtCommand(j))), configs);
    } else {
      var next := target.(state := if StepFailed in target.steps then Failed else Succeeded);
      SavedRules(b, index, next, configs);
      assert b.targets[index := target][index := next] == b.targets[index := next];
      SameRules(Save(b, index, next), Put(Save(b, index, next), w, Busy(index, AtClosing)), configs);
    }
  }

  lemma SameRules(b: Batch, t: Batch, configs: seq<Config>)
    requires Rules(b, configs) && t.targets == b.targets && (b.aborted ==> t.aborted)
    ensures Rules(t, configs)
  {
    forall i | 0 <= i < |t.targets| ensures Rule(t.targets[i], configs, t.aborted) {
      assert Rule(b.targets[i], configs, b.aborted);
    }
  }

  /** The result of step i keeps the rule, if the target may go on; otherwise the rest is skipped. */
  lemma RecordedRule(target: Target, i: nat, result: StepState, configs: seq<Config>, aborted: bool)
    requires Fits(target, AtCommand(i)) && Rule(target, configs, aborted) && i < |configs|
    requires result == StepSucceeded || result == StepFailed
    ensures var updated := target.(steps := target.steps[i := result]);
            && (result == StepSucceeded || configs[i].continueOnError ==> Rule(updated, configs, aborted))
            && Rule(SkippedFrom(updated, i + 1), configs, aborted)
  {
    var before := target.(steps := target.steps[i := StepQueued]);
    assert forall k :: 0 <= k < |target.steps| && k != i ==> target.steps[k] == before.steps[k];
  }

  lemma ExecutedRules(b: Batch, w: nat, outcome: Outcome, configs: seq<Config>, targets: nat, concurrency: nat)
    requires Inv(b, targets, |configs|, concurrency) && Rules(b, configs)
    ensures Rules(CommandSettled(b, w, outcome, configs), configs)
  {
    hide Inv, Rules, Rule, Save, Proceed, Abandon, Put, CountsOf, Fits, RanUpTo;
    if WorksAt(b, w) && b.workers[w].place.AtCommand? {
      WorkerFacts(b, w, targets, |configs|, concurrency);
      var index, i := b.workers[w].index, b.workers[w].place.step;
      RuleOf(b, index, configs);
      var target := b.targets[index];
      CommandFits(target, i);
      if i < |target.steps| {
        var result := if outcome == ExitedWell then StepSucceeded else StepFailed;
        var updated := target.(steps := target.steps[i := result]);
        RecordedRan(target, i, result);
        RecordedRule(target, i, result, configs, b.aborted);
        if outcome == Threw && b.aborted {
          AbandonRules(b, w, target, configs);
        } else if outcome != ExitedWell && !configs[i].continueOnError {
          AbandonRules(b, w, SkippedFrom(updated, i + 1), configs);
        } else if outcome != Threw && configs[i].delayed && i + 1 < |target.steps| {
          AbandonRules(b, w, updated, configs);
          SavedRules(b, index, updated, configs);
          PutRules(Save(b, index, updated), w, Busy(index, AtDelay(i)), configs);
        } else {
          ProceedRules(b, w, updated, i + 1, configs);
        }
      }
    }
  }

  lemma RuleOf(b: Batch, i: nat, configs: seq<Config>)
    requires Rules(b, configs) && i < |b.targets|
    ensures Rule(b.targets[i], configs, b.aborted)
  {
  }

  lemma CommandFits(target: Target, i: nat)
    requires Fits(target, AtCommand(i))
    ensures target.state == Running && i < |target.steps|
  {
  }

  lemma PutRules(b: Batch, w: nat, worker: Worker, configs: seq<Config>)
    requires Rules(b, configs) && w < |b.workers|
    ensures Rules(Put(b, w, worker), configs)
  {
    SameRules(b, Put(b, w, worker), configs);
  }

  lemma TakeRules(b: Batch, w: nat, opening: Opening, targets: nat, configs: seq<Config>, concurrency: nat)
    requires Inv(b, targets, |configs|, concurrency) && Rules(b, configs)
    ensures Rules(TakeNext(b, w, opening), configs)
  {
    hide CountsOf, Abandoned, Settled;
    if w < |b.workers| && b.workers[w] == Idle && !b.aborted && b.cursor < |b.targets| {
      assert TargetOk(b, b.cursor, |configs|) && Rule(b.targets[b.cursor], configs, b.aborted);
      var target := b.targets[b.cursor];
      AbandonedRule(target.(state := Connecting), configs, b.aborted);
    }
  }

  lemma ConnectedRules(b: Batch, w: nat, ready: bool, targets: nat, configs: seq<Config>, concurrency: nat)
    requires Inv(b, targets, |configs|, concurrency) && Rules(b, configs)
    ensures Rules(ConnectionSettled(b, w, ready), configs)
  {
    hide Inv, Proceed, Abandon, CountsOf;
    if WorksAt(b, w) && b.workers[w].place == AtConnection {
      WorkerFacts(b, w, targets, |configs|, concurrency);
      var target := b.targets[b.workers[w].index];
      if ready {
        ProceedRules(b, w, target.(state := Running), 0, configs);
      } else {
        AbandonRules(b, w, target, configs);
      }
    }
  }

  lemma DelayedRules(b: Batch, w: nat, targets: nat, configs: seq<Config>, concurrency: nat)
    requires Inv(b, targets, |configs|, concurrency) && Rules(b, configs)
    ensures Rules(DelaySettled(b, w), configs)
  {
    hide Inv, Proceed, Abandon, CountsOf;
    if WorksAt(b, w) && b.workers[w].place.AtDelay? {
      WorkerFacts(b, w, targets, |configs|, concurrency);
      var target := b.targets[b.workers[w].index];
      if b.aborted {
        AbandonRules(b, w, target, configs);
      } else {
        ProceedRules(b, w, target, b.workers[w].place.step + 1, configs);
      }
    }
  }

  lemma FinalizeRules(b: Batch, configs: seq<Config>)
    requires Rules(b, configs)
    ensures Rules(Finalize(b), configs)
  {
    hide CountsOf;
    forall i | 0 <= i < |b.targets| ensures b.aborted ==> Rule(CanceledTarget(b.targets[i]), configs, b.aborted) {
      assert Rule(b.targets[i], configs, b.aborted);
    }
  }

  /** In every run a failure stops its target, unless the step lets it go on; only an abort cancels. */
  lemma {:induction false} FailureStops(trace: seq<Step>, targets: nat, configs: seq<Config>, concurrency: nat)
    requires concurrency > 0
    ensures Rules(After(trace, targets, configs, concurrency), configs)
    decreases |trace|
  {
    if trace != [] {
      var init, step := trace[..|trace| - 1], trace[|trace| - 1];
      FailureStops(init, targets, configs, concurrency);
      Reachable(init, targets, configs, concurrency);
      var b := After(init, targets, configs, concurrency);
      hide Inv, Rules, TakeNext, ConnectionSettled, CommandSettled, DelaySettled, Finalize;
      match step {
        case Take(w, opening) => TakeRules(b, w, opening, targets, configs, concurrency);
        case Connected(w, ready) => ConnectedRules(b, w, ready, targets, configs, concurrency);
        case Executed(w, outcome) => ExecutedRules(b, w, outcome, configs, targets, concurrency);
        case Delayed(w) => DelayedRules(b, w, targets, configs, concurrency);
        case Closed(w) => SameRules(b, ConnectionClosed(b, w), configs);
        case Abort => SameRules(b, Cancel(b), configs);
        case Shutdown => SameRules(b, Shut(b), configs);
        case Finish => FinalizeRules(b, configs);
      }
    }
  }

  lemma {:induction false} TallyAll(targets: seq<Target>)
    ensures (forall i :: 0 <= i < |targets| ==> Over(targets[i].state)) ==> TallyOver(targets) == |targets|
    ensures Tally(targets, Succeeded) <= |targets|
    ensures Tally(targets, Succeeded) == |targets| <==> AllSucceeded(targets)
  {
    if targets != [] {
      var init := targets[..|targets| - 1];
      TallyAll(init);
      assert forall i :: 0 <= i < |init| ==> init[i] == targets[i];
    }
  }
}
