/**
 What a batch operation records, told by what its commands reported: the state of every step and of every
 target that is over is read from the trace, and not from the functions that compute it.
 */
module BatchAnswers {
  import opened Common
  import opened BatchScheduler
  import opened BatchProgress
  import opened BatchLeftovers

  /** A step of a target. */
  datatype Turn = Turn(target: nat, step: nat)

  datatype Report = Well | Badly

  type Reports = map<Turn, Report>

  /** What a command that returns reports; one that is broken off by an abort reports nothing. */
  function ReportAt(b: Batch, step: Step): Reports {
    if step.Executed? && WorksAt(b, step.worker) && b.workers[step.worker].place.AtCommand?
       && !(step.outcome == Threw && b.aborted)
    then
      map[Turn(b.workers[step.worker].index, b.workers[step.worker].place.step) :=
        if step.outcome == ExitedWell then Well else Badly]
    else map[]
  }

  function Reported(trace: seq<Step>, targets: nat, configs: seq<Config>, concurrency: nat): Reports {
    if trace == [] then map[]
    else
      var init, step := trace[..|trace| - 1], trace[|trace| - 1];
      Reported(init, targets, configs, concurrency) + ReportAt(After(init, targets, configs, concurrency), step)
  }

  /** The targets that are over after a step of an aborted operation, and were not before it. */
  function EndedLate(before: Batch, after: Batch): set<nat> {
    set i | 0 <= i < |before.targets| && i < |after.targets| && after.aborted
            && Over(after.targets[i].state) && !Over(before.targets[i].state)
  }

  /** The targets that were over only after the operation had been aborted. */
  function Late(trace: seq<Step>, targets: nat, configs: seq<Config>, concurrency: nat): set<nat> {
    if trace == [] then {}
    else
      var init := trace[..|trace| - 1];
      Late(init, targets, configs, concurrency)
      + EndedLate(After(init, targets, configs, concurrency), After(trace, targets, configs, concurrency))
  }

  predicate Says(reports: Reports, i: nat, k: nat, report: Report) {
    Turn(i, k) in reports && reports[Turn(i, k)] == report
  }

  /** A step that failed and does not let the target go on. */
  predicate StopsAt(reports: Reports, configs: seq<Config>, i: nat, k: nat) {
    k < |configs| && Says(reports, i, k, Badly) && !configs[k].continueOnError
  }

  predicate StoppedBefore(reports: Reports, configs: seq<Config>, i: nat, k: nat) {
    exists j :: 0 <= j < k && StopsAt(reports, configs, i, j)
  }

  predicate AllWell(reports: Reports, configs: seq<Config>, i: nat) {
    forall k :: 0 <= k < |configs| ==> Says(reports, i, k, Well)
  }

  /** Every command of the target has returned, and none of them stopped it. */
  predicate Completed(reports: Reports, configs: seq<Config>, i: nat) {
    forall k :: 0 <= k < |configs| ==> Turn(i, k) in reports && !StopsAt(reports, configs, i, k)
  }

  /** How a target ends. */
  function Verdict(reports: Reports, configs: seq<Config>, i: nat, late: bool): TargetState {
    if AllWell(reports, configs, i) then Succeeded
    else if late && !Completed(reports, configs, i) then Canceled
    else Failed
  }

  /** What becomes of a step whose command never reported. */
  function Unreported(reports: Reports, configs: seq<Config>, i: nat, k: nat, state: TargetState): StepState {
    if state == Canceled && !StoppedBefore(reports, configs, i, k) then StepCanceled else StepSkipped
  }

  /** Step k of a target shows what its command reported. */
  predicate Shows(target: Target, reports: Reports, i: nat, k: nat)
    requires k < |target.steps|
  {
    && (target.steps[k] == StepSucceeded <==> Says(reports, i, k, Well))
    && (target.steps[k] == StepFailed <==> Says(reports, i, k, Badly))
  }

  ghost predicate ShowsReports(target: Target, reports: Reports, i: nat) {
    forall k :: 0 <= k < |target.steps| ==> Shows(target, reports, i, k)
  }

  /** A target that is over has the state and the steps that the reports call for. */
  ghost predicate Ends(target: Target, reports: Reports, configs: seq<Config>, i: nat, late: bool) {
    && target.state == Verdict(reports, configs, i, late)
    && forall k :: 0 <= k < |target.steps| && Turn(i, k) !in reports ==>
                     target.steps[k] == Unreported(reports, configs, i, k, target.state)
  }

  /** What a target tells; while it is not over, no step has stopped it. */
  ghost predicate Tells(
    target: Target, reports: Reports, configs: seq<Config>, i: nat, late: bool, missing: bool)
  {
    && |target.steps| == |configs| && ShowsReports(target, reports, i)
    && (!Over(target.state) ==> !StoppedBefore(reports, configs, i, |configs|))
    && (Over(target.state) && !missing ==> Ends(target, reports, configs, i, late))
  }

  /** A worker delays only between two steps, and only where the first of them asks for it. */
  predicate DelaysRightly(worker: Worker, configs: seq<Config>) {
    worker.Busy? && worker.place.AtDelay? ==>
      worker.place.step + 1 < |configs| && configs[worker.place.step].delayed
  }

  ghost predicate Told(b: Batch, reports: Reports, configs: seq<Config>, late: set<nat>, missing: set<nat>) {
    && (forall i :: i in late ==> i < |b.targets| && Over(b.targets[i].state))
    && (forall i :: 0 <= i < |b.targets| ==> Tells(b.targets[i], reports, configs, i, i in late, i in missing))
    && (forall w :: 0 <= w < |b.workers| ==> DelaysRightly(b.workers[w], configs))
  }

  // ----- one target -----

  /** The steps that reported nothing wait or run, unless an earlier one has stopped the target. */
  ghost predicate Waits(target: Target, reports: Reports, configs: seq<Config>, i: nat) {
    forall k :: 0 <= k < |target.steps| && Turn(i, k) !in reports ==>
                  if StoppedBefore(reports, configs, i, k) then target.steps[k] == StepSkipped
                  else target.steps[k] == StepQueued || target.steps[k] == StepRunning
  }

  lemma ShownReported(target: Target, reports: Reports, i: nat, k: nat)
    requires k < |target.steps| && ShowsReports(target, reports, i)
    ensures Turn(i, k) in reports <==> target.steps[k] == StepSucceeded || target.steps[k] == StepFailed
  {
    assert Shows(target, reports, i, k);
  }

  lemma AbandonTells(target: Target, aborted: bool, reports: Reports, configs: seq<Config>, i: nat)
    requires |target.steps| == |configs| && ShowsReports(target, reports, i) && Waits(target, reports, configs, i)
    requires !Completed(reports, configs, i)
    ensures Tells(Abandoned(target, aborted), reports, configs, i, aborted, false)
  {
    var t := Abandoned(target, aborted);
    hide StopsAt, StoppedBefore;
    forall k | 0 <= k < |t.steps| ensures Shows(t, reports, i, k) {
      assert Shows(target, reports, i, k);
    }
    assert !AllWell(reports, configs, i) by { NotAllWell(reports, configs, i); }
    forall k | 0 <= k < |t.steps| && Turn(i, k) !in reports
      ensures t.steps[k] == Unreported(reports, configs, i, k, t.state)
    {
    }
  }

  lemma NotAllWell(reports: Reports, configs: seq<Config>, i: nat)
    requires !Completed(reports, configs, i)
    ensures !AllWell(reports, configs, i)
  {
    if AllWell(reports, configs, i) {
      forall k | 0 <= k < |configs| ensures Turn(i, k) in reports && !StopsAt(reports, configs, i, k) {
        assert Says(reports, i, k, Well);
      }
    }
  }

  lemma NoneStops(reports: Reports, configs: seq<Config>, i: nat, n: nat, k: nat)
    requires !StoppedBefore(reports, configs, i, n) && k <= n
    ensures !StoppedBefore(reports, configs, i, k)
    ensures k < n ==> !StopsAt(reports, configs, i, k)
  {
  }

  lemma RanWaits(target: Target, j: nat, reports: Reports, configs: seq<Config>, i: nat)
    requires RanUpTo(target, j) && |target.steps| == |configs| && ShowsReports(target, reports, i)
    requires !StoppedBefore(reports, configs, i, |configs|)
    ensures Waits(target, reports, configs, i)
    ensures forall k :: 0 <= k < |configs| ==> (Turn(i, k) in reports <==> k < j)
  {
    forall k | 0 <= k < |configs| ensures Turn(i, k) in reports <==> k < j {
      ShownReported(target, reports, i, k);
    }
    forall k | 0 <= k < |configs| ensures !StoppedBefore(reports, configs, i, k) {
      NoneStops(reports, configs, i, |configs|, k);
    }
  }

  /** The target after its last step. */
  lemma FinishTells(target: Target, reports: Reports, configs: seq<Config>, i: nat, late: bool)
    requires target.state == Running && RanUpTo(target, |configs|) && |target.steps| == |configs|
    requires ShowsReports(target, reports, i) && !StoppedBefore(reports, configs, i, |configs|)
    ensures Tells(
      target.(state := if StepFailed in target.steps then Failed else Succeeded), reports, configs, i, late, false)
  {
    RanWaits(target, |configs|, reports, configs, i);
    var t := target.(state := if StepFailed in target.steps then Failed else Succeeded);
    forall k | 0 <= k < |configs|
      ensures Shows(t, reports, i, k) && !StopsAt(reports, configs, i, k)
      ensures Says(reports, i, k, Well) <==> target.steps[k] == StepSucceeded
    {
      assert Shows(target, reports, i, k);
      NoneStops(reports, configs, i, |configs|, k);
    }
    assert Completed(reports, configs, i);
    if StepFailed in target.steps {
      var k :| 0 <= k < |target.steps| && target.steps[k] == StepFailed;
      assert !Says(reports, i, k, Well);
    }
  }

  /** The target goes on with step j. */
  lemma StartTells(target: Target, j: nat, reports: Reports, configs: seq<Config>, i: nat, late: bool)
    requires target.state == Running && RanUpTo(target, j) && j < |target.steps| == |configs|
    requires ShowsReports(target, reports, i) && !StoppedBefore(reports, configs, i, |configs|)
    ensures Tells(target.(steps := target.steps[j := StepRunning]), reports, configs, i, late, false)
  {
    var t := target.(steps := target.steps[j := StepRunning]);
    forall k | 0 <= k < |t.steps| ensures Shows(t, reports, i, k) {
      assert Shows(target, reports, i, k);
    }
  }

  /** Step j of the target has reported. */
  lemma ReportTells(
    target: Target, j: nat, report: Report, reports: Reports, configs: seq<Config>, i: nat)
    requires Fits(target, AtCommand(j)) && |target.steps| == |configs| && ShowsReports(target, reports, i)
    requires !StoppedBefore(reports, configs, i, |configs|)
    ensures var more := reports[Turn(i, j) := report];
            var updated := target.(steps := target.steps[j := if report == Well then StepSucceeded else StepFailed]);
            && ShowsReports(updated, more, i)
            && (report == Well || configs[j].continueOnError ==> !StoppedBefore(more, configs, i, |configs|))
            && (report == Badly && !configs[j].continueOnError ==>
                  && Waits(SkippedFrom(updated, j + 1), more, configs, i)
                  && ShowsReports(SkippedFrom(updated, j + 1), more, i)
                  && !Completed(more, configs, i))
  {
    var more := reports[Turn(i, j) := report];
    var updated := target.(steps := target.steps[j := if report == Well then StepSucceeded else StepFailed]);
    forall k | 0 <= k < |updated.steps| ensures Shows(updated, more, i, k) {
      assert Shows(target, reports, i, k);
    }
    forall k | 0 <= k < |configs| && k != j ensures StopsAt(more, configs, i, k) <==> StopsAt(reports, configs, i, k) {
    }
    forall k | 0 <= k < |configs| && k != j ensures !StopsAt(more, configs, i, k) {
      NoneStops(reports, configs, i, |configs|, k);
    }
    if report == Badly && !configs[j].continueOnError {
      var skipped := SkippedFrom(updated, j + 1);
      assert StopsAt(more, configs, i, j);
      forall k | 0 <= k < |skipped.steps| ensures Shows(skipped, more, i, k) {
        assert Shows(updated, more, i, k);
      }
      var before := target.(steps := target.steps[j := StepQueued]);
      assert forall k :: 0 <= k < |before.steps| && k != j ==> before.steps[k] == target.steps[k];
      forall k | 0 <= k < |skipped.steps| && Turn(i, k) !in more
        ensures StoppedBefore(more, configs, i, k) && skipped.steps[k] == StepSkipped
      {
        ShownReported(target, reports, i, k);
        assert k > j;
      }
    }
  }

  // ----- the whole operation -----

  /** Reports, targets and the time of endings have changed for one target only. */
  ghost predicate OnlyAbout(i: nat, reports: Reports, more: Reports) {
    forall turn: Turn :: turn.target != i ==>
                     (turn in more <==> turn in reports) && (turn in reports ==> more[turn] == reports[turn])
  }

  lemma SameTells(
    target: Target, reports: Reports, more: Reports, configs: seq<Config>, i: nat, index: nat, late: bool,
    missing: bool)
    requires OnlyAbout(index, reports, more) && i != index && Tells(target, reports, configs, i, late, missing)
    ensures Tells(target, more, configs, i, late, missing)
  {
    forall k: nat, report ensures Says(more, i, k, report) <==> Says(reports, i, k, report) {
      assert Turn(i, k).target != index;
    }
    forall k: nat ensures StopsAt(more, configs, i, k) <==> StopsAt(reports, configs, i, k) {
    }
    forall k | 0 <= k < |target.steps|
      ensures Shows(target, more, i, k) && (Turn(i, k) in more <==> Turn(i, k) in reports)
    {
      assert Shows(target, reports, i, k) && Turn(i, k).target != index;
    }
    forall k: nat ensures StoppedBefore(more, configs, i, k) <==> StoppedBefore(reports, configs, i, k) {
    }
    forall k: nat ensures Turn(i, k) in more <==> Turn(i, k) in reports {
      assert Turn(i, k).target != index;
    }
    assert AllWell(more, configs, i) <==> AllWell(reports, configs, i);
    assert Completed(more, configs, i) <==> Completed(reports, configs, i);
  }

  /** One target has been replaced by another that tells what it should. */
  lemma OneTold(
    b: Batch, t: Batch, index: nat, reports: Reports, more: Reports, configs: seq<Config>, late: set<nat>,
    missing: set<nat>, gone: set<nat>)
    requires Told(b, reports, configs, late, missing) && OnlyAbout(index, reports, more)
    requires index < |b.targets| == |t.targets| && t.targets == b.targets[index := t.targets[index]]
    requires Tells(
      t.targets[index], more, configs, index, t.aborted && Over(t.targets[index].state), index in missing + gone)
    requires !Over(b.targets[index].state) && gone <= {index}
    requires forall w :: 0 <= w < |t.workers| ==> DelaysRightly(t.workers[w], configs)
    ensures Told(t, more, configs, late + EndedLate(b, t), missing + gone)
  {
    hide Tells, OnlyAbout;
    var lateMore := late + EndedLate(b, t);
    forall i | 0 <= i < |t.targets|
      ensures Tells(t.targets[i], more, configs, i, i in lateMore, i in missing + gone)
    {
      if i != index {
        assert t.targets[i] == b.targets[i] && i !in EndedLate(b, t) && i !in gone;
        SameTells(b.targets[i], reports, more, configs, i, index, i in late, i in missing);
      }
    }
  }

  lemma TellsOf(
    b: Batch, reports: Reports, configs: seq<Config>, late: set<nat>, missing: set<nat>, i: nat)
    requires Told(b, reports, configs, late, missing) && i < |b.targets|
    ensures Tells(b.targets[i], reports, configs, i, i in late, i in missing)
    ensures |b.targets[i].steps| == |configs| && ShowsReports(b.targets[i], reports, i)
    ensures !Over(b.targets[i].state) ==> !StoppedBefore(reports, configs, i, |configs|)
  {
  }

  lemma AbandonTold(
    b: Batch, w: nat, target: Target, reports: Reports, more: Reports, configs: seq<Config>, late: set<nat>,
    missing: set<nat>)
    requires Told(b, reports, configs, late, missing) && WorksAt(b, w)
    requires var index := b.workers[w].index;
             && OnlyAbout(index, reports, more) && !Over(b.targets[index].state) && index !in missing
             && |target.steps| == |configs| && ShowsReports(target, more, index)
             && Waits(target, more, configs, index) && !Completed(more, configs, index)
    ensures var t := Abandon(Save(b, b.workers[w].index, target), w);
            Told(t, more, configs, late + EndedLate(b, t), missing)
  {
    hide CountsOf, Tells, OnlyAbout, Waits, Completed;
    var index := b.workers[w].index;
    var t := Abandon(Save(b, index, target), w);
    AbandonTells(target, b.aborted, more, configs, index);
    assert t.targets[index] == Abandoned(target, b.aborted);
    assert t.targets == b.targets[index := t.targets[index]];
    assert missing + {} == missing;
    OneTold(b, t, index, reports, more, configs, late, missing, {});
  }

  lemma ProceedTold(
    b: Batch, w: nat, target: Target, j: nat, reports: Reports, more: Reports, configs: seq<Config>, late: set<nat>,
    missing: set<nat>)
    requires Told(b, reports, configs, late, missing) && WorksAt(b, w)
    requires var index := b.workers[w].index;
             && OnlyAbout(index, reports, more) && !Over(b.targets[index].state) && index !in missing
             && |target.steps| == |configs| && ShowsReports(target, more, index)
             && target.state == Running && RanUpTo(target, j) && !StoppedBefore(more, configs, index, |configs|)
    ensures var t := Proceed(Save(b, b.workers[w].index, target), w, j);
            Told(t, more, configs, late + EndedLate(b, t), missing)
  {
    hide CountsOf, Tells, OnlyAbout, Abandon;
    var index := b.workers[w].index;
    var t := Proceed(Save(b, index, target), w, j);
    RanWaits(target, j, more, configs, index);
    if j < |configs| && b.aborted {
      assert Turn(index, j) !in more;
      AbandonTold(b, w, target, reports, more, configs, late, missing);
    } else {
      if j < |configs| {
        StartTells(target, j, more, configs, index, false);
      } else {
        FinishTells(target, more, configs, index, b.aborted);
      }
      assert t.targets == b.targets[index := t.targets[index]];
      assert missing + {} == missing;
      OneTold(b, t, index, reports, more, configs, late, missing, {});
    }
  }

  lemma NoNews(i: nat, reports: Reports)
    ensures OnlyAbout(i, reports, reports)
  {
  }

  lemma Working(
    b: Batch, w: nat, reports: Reports, configs: seq<Config>, late: set<nat>, missing: set<nat>, targets: nat,
    concurrency: nat)
    requires Inv(b, targets, |configs|, concurrency) && Told(b, reports, configs, late, missing) && Lefts(b, missing)
    requires WorksAt(b, w) && b.workers[w].place != AtClosing
    ensures var index := b.workers[w].index;
            && index !in missing && !Over(b.targets[index].state) && Fits(b.targets[index], b.workers[w].place)
            && |b.targets[index].steps| == |configs| && ShowsReports(b.targets[index], reports, index)
            && !StoppedBefore(reports, configs, index, |configs|)
    ensures Save(b, b.workers[w].index, b.targets[b.workers[w].index]) == b
  {
    WorkerFacts(b, w, targets, |configs|, concurrency);
    WorkedOn(b, w, missing, targets, |configs|, concurrency);
    hide Inv, Lefts, Told;
    TellsOf(b, reports, configs, late, missing, b.workers[w].index);
  }

  lemma TakeTold(
    b: Batch, w: nat, opening: Opening, reports: Reports, configs: seq<Config>, late: set<nat>, missing: set<nat>,
    targets: nat, concurrency: nat)
    requires Inv(b, targets, |configs|, concurrency) && Told(b, reports, configs, late, missing) && configs != []
    ensures var t := TakeNext(b, w, opening);
            Told(t, reports, configs, late + EndedLate(b, t), missing + MissingAt(b, Take(w, opening)))
  {
    var t := TakeNext(b, w, opening);
    if Takes(b, w) {
      var target := b.targets[b.cursor];
      assert TargetOk(b, b.cursor, |configs|);
      hide Inv, CountsOf, Tells;
      TellsOf(b, reports, configs, late, missing, b.cursor);
      RanWaits(target.(state := Connecting), 0, reports, configs, b.cursor) by {
        ShownSame(target, target.(state := Connecting), reports, b.cursor);
      }
      assert Turn(b.cursor, 0) !in reports;
      AbandonTells(target.(state := Connecting), b.aborted, reports, configs, b.cursor);
      TakenTells(target, reports, configs, b.cursor);
      assert t.targets == b.targets[b.cursor := t.targets[b.cursor]];
      NoNews(b.cursor, reports);
      OneTold(b, t, b.cursor, reports, reports, configs, late, missing, MissingAt(b, Take(w, opening)));
    } else {
      SameTold(b, t, reports, configs, late, missing);
      assert missing + MissingAt(b, Take(w, opening)) == missing;
    }
  }

  lemma ShownSame(target: Target, other: Target, reports: Reports, i: nat)
    requires ShowsReports(target, reports, i) && other.steps == target.steps
    ensures ShowsReports(other, reports, i)
  {
    forall k | 0 <= k < |other.steps| ensures Shows(other, reports, i, k) {
      assert Shows(target, reports, i, k);
    }
  }

  lemma TakenTells(target: Target, reports: Reports, configs: seq<Config>, i: nat)
    requires |target.steps| == |configs| && ShowsReports(target, reports, i)
    requires !StoppedBefore(reports, configs, i, |configs|)
    ensures Tells(target.(state := Failed), reports, configs, i, false, true)
    ensures Tells(target.(state := Connecting), reports, configs, i, false, false)
  {
    ShownSame(target, target.(state := Failed), reports, i);
    ShownSame(target, target.(state := Connecting), reports, i);
  }

  /** A step that touches no target. */
  lemma SameTold(
    b: Batch, t: Batch, reports: Reports, configs: seq<Config>, late: set<nat>, missing: set<nat>)
    requires Told(b, reports, configs, late, missing) && t.targets == b.targets
    requires forall w :: 0 <= w < |t.workers| ==> DelaysRightly(t.workers[w], configs)
    ensures Told(t, reports, configs, late + EndedLate(b, t), missing)
  {
    assert EndedLate(b, t) == {};
    assert late + {} == late;
  }

  lemma ConnectedTold(
    b: Batch, w: nat, ready: bool, reports: Reports, configs: seq<Config>, late: set<nat>, missing: set<nat>,
    targets: nat, concurrency: nat)
    requires Inv(b, targets, |configs|, concurrency) && Told(b, reports, configs, late, missing) && Lefts(b, missing)
    requires configs != []
    ensures var t := ConnectionSettled(b, w, ready); Told(t, reports, configs, late + EndedLate(b, t), missing)
  {
    hide Inv, Told, Lefts, Proceed, Abandon, CountsOf;
    if WorksAt(b, w) && b.workers[w].place == AtConnection {
      Working(b, w, reports, configs, late, missing, targets, concurrency);
      var index := b.workers[w].index;
      var target := b.targets[index];
      NoNews(index, reports);
      ShownSame(target, target.(state := Running), reports, index);
      RanWaits(target, 0, reports, configs, index);
      if ready {
        ProceedTold(b, w, target.(state := Running), 0, reports, reports, configs, late, missing);
      } else {
        assert Turn(index, 0) !in reports;
        AbandonTold(b, w, target, reports, reports, configs, late, missing);
      }
    } else {
      Rests(b, reports, configs, late, missing);
    }
  }

  lemma Rests(b: Batch, reports: Reports, configs: seq<Config>, late: set<nat>, missing: set<nat>)
    requires Told(b, reports, configs, late, missing)
    ensures Told(b, reports, configs, late + EndedLate(b, b), missing)
  {
    SameTold(b, b, reports, configs, late, missing);
  }

  lemma DelayFits(target: Target, i: nat)
    requires Fits(target, AtDelay(i))
    ensures target.state == Running && RanUpTo(target, i + 1)
  {
  }

  lemma DelayedTold(
    b: Batch, w: nat, reports: Reports, configs: seq<Config>, late: set<nat>, missing: set<nat>, targets: nat,
    concurrency: nat)
    requires Inv(b, targets, |configs|, concurrency) && Told(b, reports, configs, late, missing) && Lefts(b, missing)
    ensures var t := DelaySettled(b, w); Told(t, reports, configs, late + EndedLate(b, t), missing)
  {
    if WorksAt(b, w) && b.workers[w].place.AtDelay? {
      assert DelaysRightly(b.workers[w], configs);
      hide Inv, Told, Lefts, Proceed, Abandon, CountsOf, StoppedBefore, ShowsReports, Waits, Completed, RanUpTo;
      hide Fits, Save, OnlyAbout;
      Working(b, w, reports, configs, late, missing, targets, concurrency);
      var index, i := b.workers[w].index, b.workers[w].place.step;
      DelayFits(b.targets[index], i);
      NoNews(index, reports);
      RanWaits(b.targets[index], i + 1, reports, configs, index);
      if b.aborted {
        Unfinished(reports, configs, index, i + 1);
        AbandonTold(b, w, b.targets[index], reports, reports, configs, late, missing);
      } else {
        ProceedTold(b, w, b.targets[index], i + 1, reports, reports, configs, late, missing);
      }
    } else {
      Rests(b, reports, configs, late, missing);
    }
  }

  /** A target whose command was broken off by an abort. */
  lemma BrokenOffTold(
    b: Batch, w: nat, reports: Reports, configs: seq<Config>, late: set<nat>, missing: set<nat>, i: nat)
    requires Told(b, reports, configs, late, missing) && WorksAt(b, w)
    requires var index := b.workers[w].index;
             && index !in missing && !Over(b.targets[index].state) && Fits(b.targets[index], AtCommand(i))
             && |b.targets[index].steps| == |configs| && ShowsReports(b.targets[index], reports, index)
             && !StoppedBefore(reports, configs, index, |configs|)
             && Save(b, index, b.targets[index]) == b
    ensures Told(Abandon(b, w), reports, configs, late + EndedLate(b, Abandon(b, w)), missing)
  {
    hide Told, Abandon, Save;
    var index := b.workers[w].index;
    var target := b.targets[index];
    NoNews(index, reports);
    ShownReported(target, reports, index, i);
    var before := target.(steps := target.steps[i := StepQueued]);
    forall k | 0 <= k < |target.steps| && Turn(index, k) !in reports
      ensures !StoppedBefore(reports, configs, index, k)
      ensures target.steps[k] == StepQueued || target.steps[k] == StepRunning
    {
      ShownReported(target, reports, index, k);
      NoneStops(reports, configs, index, |configs|, k);
      assert k != i ==> target.steps[k] == before.steps[k];
    }
    AbandonTold(b, w, target, reports, reports, configs, late, missing);
  }

  lemma ExecutedTold(
    b: Batch, w: nat, outcome: Outcome, reports: Reports, configs: seq<Config>, late: set<nat>, missing: set<nat>,
    targets: nat, concurrency: nat)
    requires Inv(b, targets, |configs|, concurrency) && Told(b, reports, configs, late, missing) && Lefts(b, missing)
    ensures var t := CommandSettled(b, w, outcome, configs);
            Told(t, reports + ReportAt(b, Executed(w, outcome)), configs, late + EndedLate(b, t), missing)
  {
    hide Inv, Told, Lefts, Proceed, Abandon, Save, Put, CountsOf, Fits, RanUpTo, StoppedBefore, ShowsReports;
    var more := reports + ReportAt(b, Executed(w, outcome));
    if WorksAt(b, w) && b.workers[w].place.AtCommand? {
      Working(b, w, reports, configs, late, missing, targets, concurrency);
      var index, i := b.workers[w].index, b.workers[w].place.step;
      var target := b.targets[index];
      CommandFits(target, i);
      if outcome == Threw && b.aborted {
        assert more == reports;
        BrokenOffTold(b, w, reports, configs, late, missing, i);
      } else {
        var report := if outcome == ExitedWell then Well else Badly;
        assert more == reports[Turn(index, i) := report];
        ExecutedReports(b, w, i, outcome, report, reports, more, configs, late, missing);
      }
    } else {
      assert more == reports;
      Rests(b, reports, configs, late, missing);
    }
  }

  lemma ExecutedReports(
    b: Batch, w: nat, i: nat, outcome: Outcome, report: Report, reports: Reports, more: Reports, configs: seq<Config>,
    late: set<nat>, missing: set<nat>)
    requires Told(b, reports, configs, late, missing) && WorksAt(b, w) && b.workers[w].place == AtCommand(i)
    requires !(outcome == Threw && b.aborted) && report == (if outcome == ExitedWell then Well else Badly)
    requires var index := b.workers[w].index;
             && index !in missing && !Over(b.targets[index].state) && Fits(b.targets[index], AtCommand(i))
             && |b.targets[index].steps| == |configs| && ShowsReports(b.targets[index], reports, index)
             && !StoppedBefore(reports, configs, index, |configs|) && i < |configs|
             && more == reports[Turn(index, i) := report]
    ensures var t := CommandSettled(b, w, outcome, configs);
            Told(t, more, configs, late + EndedLate(b, t), missing)
  {
    hide Told, Proceed, Abandon, CountsOf, StoppedBefore, ShowsReports, Waits, Completed, RanUpTo;
    var index := b.workers[w].index;
    var target := b.targets[index];
    CommandFits(target, i);
    var result := if outcome == ExitedWell then StepSucceeded else StepFailed;
    var updated := target.(steps := target.steps[i := result]);
    ReportTells(target, i, report, reports, configs, index);
    RecordedRan(target, i, result);
    hide Fits;
    assert OnlyAbout(index, reports, more);
    if report == Badly && !configs[i].continueOnError {
      AbandonTold(b, w, SkippedFrom(updated, i + 1), reports, more, configs, late, missing);
    } else if outcome != Threw && configs[i].delayed && i + 1 < |target.steps| {
      RanWaits(updated, i + 1, more, configs, index);
      if b.aborted {
        assert Turn(index, i + 1) !in more;
        assert !Completed(more, configs, index) by { Unfinished(more, configs, index, i + 1); }
        AbandonTold(b, w, updated, reports, more, configs, late, missing);
      } else {
        DelayTold(b, w, updated, i, reports, more, configs, late, missing);
      }
    } else {
      ProceedTold(b, w, updated, i + 1, reports, more, configs, late, missing);
    }
  }

  lemma Unfinished(reports: Reports, configs: seq<Config>, i: nat, k: nat)
    requires k < |configs| && Turn(i, k) !in reports
    ensures !Completed(reports, configs, i)
  {
  }

  lemma DelayTold(
    b: Batch, w: nat, target: Target, i: nat, reports: Reports, more: Reports, configs: seq<Config>, late: set<nat>,
    missing: set<nat>)
    requires Told(b, reports, configs, late, missing) && WorksAt(b, w) && i + 1 < |configs| && configs[i].delayed
    requires var index := b.workers[w].index;
             && OnlyAbout(index, reports, more) && !Over(b.targets[index].state) && index !in missing
             && |target.steps| == |configs| && ShowsReports(target, more, index)
             && target.state == Running && !StoppedBefore(more, configs, index, |configs|)
    ensures var index := b.workers[w].index;
            var t := Put(Save(b, index, target), w, Busy(index, AtDelay(i)));
            Told(t, more, configs, late + EndedLate(b, t), missing)
  {
    hide CountsOf, OnlyAbout, StoppedBefore, ShowsReports;
    var index := b.workers[w].index;
    var t := Put(Save(b, index, target), w, Busy(index, AtDelay(i)));
    assert missing + {} == missing;
    assert t.targets == b.targets[index := t.targets[index]];
    OneTold(b, t, index, reports, more, configs, late, missing, {});
  }

  lemma CanceledTells(target: Target, reports: Reports, configs: seq<Config>, i: nat)
    requires target.state == Queued && RanUpTo(target, 0) && configs != []
    requires |target.steps| == |configs| && ShowsReports(target, reports, i)
    requires !StoppedBefore(reports, configs, i, |configs|)
    ensures Tells(CanceledTarget(target), reports, configs, i, true, false)
  {
    var t := CanceledTarget(target);
    RanWaits(target, 0, reports, configs, i);
    Unfinished(reports, configs, i, 0);
    NotAllWell(reports, configs, i);
    forall k | 0 <= k < |t.steps|
      ensures Shows(t, reports, i, k) && !StoppedBefore(reports, configs, i, k)
    {
      assert Shows(target, reports, i, k);
      NoneStops(reports, configs, i, |configs|, k);
    }
  }

  lemma FinalizeTold(
    b: Batch, reports: Reports, configs: seq<Config>, late: set<nat>, missing: set<nat>, targets: nat,
    concurrency: nat)
    requires Inv(b, targets, |configs|, concurrency) && Told(b, reports, configs, late, missing) && Lefts(b, missing)
    requires configs != []
    ensures var t := Finalize(b); Told(t, reports, configs, late + EndedLate(b, t), missing)
  {
    hide CountsOf, Tells, RanUpTo;
    var t := Finalize(b);
    var lateMore := late + EndedLate(b, t);
    forall i | 0 <= i < |t.targets| ensures Tells(t.targets[i], reports, configs, i, i in lateMore, i in missing) {
      TellsOf(b, reports, configs, late, missing, i);
      if t.targets[i] != b.targets[i] {
        assert TargetOk(b, i, |configs|) && Left(b.targets[i], i in missing);
        QueuedFits(b, i, targets, configs, concurrency);
        CanceledTells(b.targets[i], reports, configs, i);
        assert i in EndedLate(b, t);
      } else {
        assert i !in EndedLate(b, t);
      }
    }
  }

  /** A queued target has not been touched. */
  lemma QueuedFits(b: Batch, i: nat, targets: nat, configs: seq<Config>, concurrency: nat)
    requires Inv(b, targets, |configs|, concurrency) && i < |b.targets| && b.targets[i].state == Queued
    ensures RanUpTo(b.targets[i], 0)
  {
    assert TargetOk(b, i, |configs|);
    if i < |b.takenBy| {
      assert WorkerOk(b, b.takenBy[i]);
    }
  }

  lemma NextTold(
    b: Batch, step: Step, reports: Reports, configs: seq<Config>, late: set<nat>, missing: set<nat>, targets: nat,
    concurrency: nat)
    requires Inv(b, targets, |configs|, concurrency) && Told(b, reports, configs, late, missing) && Lefts(b, missing)
    requires configs != []
    ensures var t := Next(b, step, configs);
            Told(t, reports + ReportAt(b, step), configs, late + EndedLate(b, t), missing + MissingAt(b, step))
  {
    hide Inv, Told, Lefts, Takes, TakeNext, ConnectionSettled, CommandSettled, DelaySettled, ConnectionClosed;
    hide Cancel, Shut, Finalize, EndedLate;
    assert missing + {} == missing && reports + map[] == reports;
    match step {
      case Take(w, opening) =>
        TakeTold(b, w, opening, reports, configs, late, missing, targets, concurrency);
      case Connected(w, ready) => ConnectedTold(b, w, ready, reports, configs, late, missing, targets, concurrency);
      case Executed(w, outcome) => ExecutedTold(b, w, outcome, reports, configs, late, missing, targets, concurrency);
      case Delayed(w) => DelayedTold(b, w, reports, configs, late, missing, targets, concurrency);
      case Closed(w) => QuietTold(b, ConnectionClosed(b, w), w, reports, configs, late, missing);
      case Abort => QuietTold(b, Cancel(b), 0, reports, configs, late, missing);
      case Shutdown => QuietTold(b, Shut(b), 0, reports, configs, late, missing);
      case Finish => FinalizeTold(b, reports, configs, late, missing, targets, concurrency);
    }
  }

  lemma QuietTold(
    b: Batch, t: Batch, w: nat, reports: Reports, configs: seq<Config>, late: set<nat>, missing: set<nat>)
    requires Told(b, reports, configs, late, missing)
    requires t == ConnectionClosed(b, w) || t == Cancel(b) || t == Shut(b)
    ensures Told(t, reports, configs, late + EndedLate(b, t), missing)
  {
    SameTold(b, t, reports, configs, late, missing);
  }

  /** At every point of every run the steps and targets show what the commands have reported. */
  lemma {:induction false} AlwaysTold(trace: seq<Step>, targets: nat, configs: seq<Config>, concurrency: nat)
    requires concurrency > 0 && configs != []
    ensures Told(
      After(trace, targets, configs, concurrency), Reported(trace, targets, configs, concurrency), configs,
      Late(trace, targets, configs, concurrency), Missing(trace, targets, configs, concurrency))
    decreases |trace|
  {
    if trace == [] {
      BegunTold(targets, configs, concurrency);
    } else {
      hide Inv, Told, Lefts, Next, MissingAt, ReportAt, EndedLate, Begun;
      var init, step := trace[..|trace| - 1], trace[|trace| - 1];
      AlwaysTold(init, targets, configs, concurrency);
      Reachable(init, targets, configs, concurrency);
      AlwaysLeft(init, targets, configs, concurrency);
      NextTold(
        After(init, targets, configs, concurrency), step, Reported(init, targets, configs, concurrency), configs,
        Late(init, targets, configs, concurrency), Missing(init, targets, configs, concurrency), targets, concurrency);
    }
  }

  lemma BegunTold(targets: nat, configs: seq<Config>, concurrency: nat)
    ensures Told(Begun(targets, |configs|, concurrency), map[], configs, {}, {})
  {
    hide CountsOf;
  }

  /**
   In every run a step has succeeded exactly if its command reported well, and failed exactly if it reported
   badly. A target that is over, and was not taken without its bookmark, has succeeded exactly if all its
   commands reported well; otherwise it is canceled if it ended after an abort before it was done, and has failed
   if not.
   */
  lemma StepsTellReports(
    trace: seq<Step>, targets: nat, configs: seq<Config>, concurrency: nat, i: nat, k: nat)
    requires concurrency > 0 && i < targets && k < |configs|
    ensures var b := After(trace, targets, configs, concurrency);
            var reports := Reported(trace, targets, configs, concurrency);
            && |b.targets| == targets && |b.targets[i].steps| == |configs|
            && (b.targets[i].steps[k] == StepSucceeded <==> Says(reports, i, k, Well))
            && (b.targets[i].steps[k] == StepFailed <==> Says(reports, i, k, Badly))
            && (Over(b.targets[i].state) && i !in Missing(trace, targets, configs, concurrency) ==>
                  && b.targets[i].state ==
                     Verdict(reports, configs, i, i in Late(trace, targets, configs, concurrency))
                  && (Turn(i, k) !in reports ==>
                        b.targets[i].steps[k] == Unreported(reports, configs, i, k, b.targets[i].state)))
            && (b.targets[i].state == Succeeded <==> AllWell(reports, configs, i))
  {
    AlwaysTold(trace, targets, configs, concurrency);
    Reachable(trace, targets, configs, concurrency);
    AlwaysLeft(trace, targets, configs, concurrency);
    var b := After(trace, targets, configs, concurrency);
    var reports := Reported(trace, targets, configs, concurrency);
    var missing := Missing(trace, targets, configs, concurrency);
    var late := Late(trace, targets, configs, concurrency);
    hide After, Reported, Missing, Late, CountsOf;
    assert Tells(b.targets[i], reports, configs, i, i in late, i in missing);
    assert Shows(b.targets[i], reports, i, k);
    assert Left(b.targets[i], i in missing) && TargetOk(b, i, |configs|);
    UnfinishedNotWell(b, i, reports, targets, configs, concurrency);
  }

  /** While a target is at work, or if it failed untouched, not all its commands have reported well. */
  lemma UnfinishedNotWell(
    b: Batch, i: nat, reports: Reports, targets: nat, configs: seq<Config>, concurrency: nat)
    requires Inv(b, targets, |configs|, concurrency) && i < |b.targets| && configs != []
    requires |b.targets[i].steps| == |configs| && ShowsReports(b.targets[i], reports, i)
    requires forall w :: 0 <= w < |b.workers| ==> DelaysRightly(b.workers[w], configs)
    ensures !Over(b.targets[i].state) || RanUpTo(b.targets[i], 0) ==> !AllWell(reports, configs, i)
  {
    var target := b.targets[i];
    if RanUpTo(target, 0) {
      ShownReported(target, reports, i, 0);
      assert !Says(reports, i, 0, Well);
    } else if !Over(target.state) {
      assert TargetOk(b, i, |configs|);
      var w := b.takenBy[i];
      assert WorkerOk(b, w) && DelaysRightly(b.workers[w], configs);
      var k := if b.workers[w].place.AtCommand? then b.workers[w].place.step else b.workers[w].place.step + 1;
      ShownReported(target, reports, i, k);
      assert !Says(reports, i, k, Well);
    }
  }

  // ----- where workers go, and what stays -----

  /** What worker w turns to next, by the place it is at. */
  function Onward(b: Batch, w: nat, step: Step, configs: seq<Config>): Worker
    requires WorksAt(b, w)
  {
    var index, n := b.workers[w].index, |configs|;
    match b.workers[w].place
    case AtConnection =>
      Busy(index, if step.Connected? && step.ready && !b.aborted && n > 0 then AtCommand(0) else AtClosing)
    case AtCommand(i) =>
      if b.aborted || i + 1 >= n || i >= n then Busy(index, AtClosing)
      else if step.Executed? && step.outcome != ExitedWell && !configs[i].continueOnError then Busy(index, AtClosing)
      else if step.Executed? && step.outcome != Threw && configs[i].delayed then Busy(index, AtDelay(i))
      else Busy(index, AtCommand(i + 1))
    case AtDelay(i) => Busy(index, if b.aborted || i + 1 >= n then AtClosing else AtCommand(i + 1))
    case AtClosing => Idle
  }

  /** The step that a worker at this place waits for. */
  predicate Awaited(b: Batch, w: nat, step: Step)
    requires WorksAt(b, w)
  {
    match b.workers[w].place
    case AtConnection => step.Connected? && step.worker == w
    case AtCommand(_) => step.Executed? && step.worker == w
    case AtDelay(_) => step == Delayed(w)
    case AtClosing => step == Closed(w)
  }

  /** A worker runs the steps of its target in order, with the delays that are asked for, and then closes. */
  lemma WorkerMoves(b: Batch, w: nat, step: Step, targets: nat, configs: seq<Config>, concurrency: nat)
    requires Inv(b, targets, |configs|, concurrency) && WorksAt(b, w) && Awaited(b, w, step)
    ensures Next(b, step, configs).workers == b.workers[w := Onward(b, w, step, configs)]
    ensures Next(b, step, configs).cursor == b.cursor
  {
    hide CountsOf, Abandoned;
    WorkerFacts(b, w, targets, |configs|, concurrency);
    hide Inv;
  }

  /** An idle worker takes the next target if there is one and nobody has interrupted, and is done otherwise. */
  lemma WorkerTakes(b: Batch, w: nat, opening: Opening, configs: seq<Config>)
    requires w < |b.workers| && b.workers[w] == Idle
    ensures var t := Next(b, Take(w, opening), configs);
            if b.aborted then t == b.(workers := b.workers[w := Done])
            else if b.cursor >= |b.targets| then
              t.workers == b.workers[w := Done] && t.targets == b.targets && t.takenBy == b.takenBy
            else
              && t.cursor == b.cursor + 1 && t.takenBy == b.takenBy + [w] && |t.targets| == |b.targets|
              && t.workers == (if opening == ConnectionCreated then b.workers[w := Busy(b.cursor, AtConnection)]
                               else b.workers)
              && (opening == ConnectionCreated ==> t.targets[b.cursor] == b.targets[b.cursor].(state := Connecting))
              && (opening != ConnectionCreated ==> t.targets[b.cursor].state == Failed)
              && forall i :: 0 <= i < |b.targets| && i != b.cursor ==> t.targets[i] == b.targets[i]
  {
    hide CountsOf;
  }

  /** The target that a step may change; a step without one changes none, or ends the operation. */
  predicate Concerns(b: Batch, step: Step, i: nat) {
    match step
    case Take(w, _) => Takes(b, w) && i == b.cursor
    case Connected(w, _) => WorksAt(b, w) && b.workers[w].index == i && b.workers[w].place == AtConnection
    case Executed(w, _) => WorksAt(b, w) && b.workers[w].index == i && b.workers[w].place.AtCommand?
    case Delayed(w) => WorksAt(b, w) && b.workers[w].index == i && b.workers[w].place.AtDelay?
    case Finish => true
    case _ => false
  }

  lemma OthersStay(b: Batch, step: Step, configs: seq<Config>, i: nat)
    requires i < |b.targets| && !Concerns(b, step, i)
    ensures |Next(b, step, configs).targets| == |b.targets| && Next(b, step, configs).targets[i] == b.targets[i]
  {
    hide CountsOf, Abandoned;
  }

  /** A target that is over stays as it is. */
  lemma OverStays(b: Batch, step: Step, targets: nat, configs: seq<Config>, concurrency: nat, i: nat)
    requires Inv(b, targets, |configs|, concurrency) && i < |b.targets| && Over(b.targets[i].state)
    ensures |Next(b, step, configs).targets| == |b.targets| && Next(b, step, configs).targets[i] == b.targets[i]
  {
    assert TargetOk(b, i, |configs|);
    if !Concerns(b, step, i) {
      OthersStay(b, step, configs, i);
    } else if !step.Finish? && !step.Take? {
      WorkerFacts(b, step.worker, targets, |configs|, concurrency);
    } else {
      hide CountsOf;
    }
  }

  // ----- counts -----

  function InState(targets: seq<Target>, state: TargetState): set<nat> {
    set i | 0 <= i < |targets| && targets[i].state == state
  }

  lemma {:induction false} TallyIs(targets: seq<Target>, state: TargetState)
    ensures Tally(targets, state) == |InState(targets, state)|
  {
    if targets == [] {
      assert InState(targets, state) == {};
    } else {
      var n := |targets| - 1;
      TallyIs(targets[..n], state);
      assert InState(targets, state) ==
             InState(targets[..n], state) + if targets[n].state == state then {n} else {};
    }
  }

  /** At every point of every run the counts are the numbers of targets in each state. */
  lemma CountsTell(trace: seq<Step>, targets: nat, configs: seq<Config>, concurrency: nat)
    requires concurrency > 0
    ensures var b := After(trace, targets, configs, concurrency);
            && b.counts.succeeded == |InState(b.targets, Succeeded)|
            && b.counts.failed == |InState(b.targets, Failed)|
            && b.counts.canceled == |InState(b.targets, Canceled)|
            && b.counts.completed == b.counts.succeeded + b.counts.failed + b.counts.canceled
  {
    Reachable(trace, targets, configs, concurrency);
    var b := After(trace, targets, configs, concurrency);
    hide After;
    TallyIs(b.targets, Succeeded);
    TallyIs(b.targets, Failed);
    TallyIs(b.targets, Canceled);
  }

  // ----- interruptions -----

  /** The first interruption of the trace, if any. */
  function FirstInterruption(trace: seq<Step>): Option<Step> {
    if trace == [] then None
    else if Interrupts(trace[0]) then Some(trace[0]) else FirstInterruption(trace[1..])
  }

  lemma {:induction false} InterruptionNext(trace: seq<Step>, step: Step)
    ensures FirstInterruption(trace + [step]) ==
            if FirstInterruption(trace).Some? then FirstInterruption(trace)
            else if Interrupts(step) then Some(step) else None
  {
    if trace == [] {
      assert (trace + [step])[1..] == [];
    } else {
      assert (trace + [step])[1..] == trace[1..] + [step];
      InterruptionNext(trace[1..], step);
    }
  }

  /** Until it is finished, an operation is aborted exactly if it was interrupted, and shows who did it. */
  lemma {:induction false} InterruptionShown(trace: seq<Step>, targets: nat, configs: seq<Config>, concurrency: nat)
    ensures var b := After(trace, targets, configs, concurrency);
            !b.finished ==>
              && (b.aborted <==> FirstInterruption(trace).Some?)
              && b.state == (if FirstInterruption(trace) == Some(Abort) then Canceling else Active)
    decreases |trace|
  {
    if trace != [] {
      var init, step := trace[..|trace| - 1], trace[|trace| - 1];
      assert trace == init + [step];
      InterruptionShown(init, targets, configs, concurrency);
      InterruptionNext(init, step);
      InterruptedStep(After(init, targets, configs, concurrency), step, configs);
      hide Next, Begun;
    }
  }

  lemma InterruptedStep(b: Batch, step: Step, configs: seq<Config>)
    ensures var t := Next(b, step, configs);
            && (b.finished ==> t.finished)
            && (!t.finished ==>
                  && (t.aborted <==> b.aborted || Interrupts(step))
                  && t.state == (if step == Abort && !b.aborted then Canceling else b.state))
  {
    hide CountsOf, Abandoned, SkippedFrom;
  }
}
