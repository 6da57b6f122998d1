/**
 What the rows, calls and locks of the sync service tell: the state of a profile is that of the last event that
 concerned it, and events are read from the steps and from the calls they are about.
 */
module SyncAnswers {
  import opened Common
  import opened SyncLock

  /** What can happen to a profile. */
  datatype Event =
    | Left(state: RunState) | Interrupted | Created | Began(kind: Kind) | Aborted | Failure | Finished(kind: Kind)
    | Rejection | Committed | Canceled

  /** What a profile shows after an event. */
  function Shown(event: Event): RunState {
    match event
    case Left(state) => state
    case Interrupted => Failed
    case Created => Idle
    case Began(kind) => if kind == Upload then Uploading else Checking
    case Aborted => Failed
    case Failure => Failed
    case Finished(kind) => if kind == PreviewDownload then DownloadPreview else Idle
    case Rejection => Failed
    case Committed => Idle
    case Canceled => Idle
  }

  /** Call i is an operation on profile id in this phase. */
  predicate At(s: Sync, i: nat, id: Id, phase: Phase) {
    i < |s.calls| && s.calls[i].Locked? && s.calls[i].profile == id && s.calls[i].phase == phase
  }

  /** What a step means for a profile that has a row; a backup means nothing. */
  function EventOf(s: Sync, step: Step, id: Id): Option<Event> {
    match step
    case SecretArrived(i, found) =>
      if At(s, i, id, AwaitingSecret) && found
      then Some(if s.calls[i].aborted then Aborted else Began(s.calls[i].kind)) else None
    case Returned(i, ok) =>
      if At(s, i, id, Working) && s.calls[i].kind != Backup
      then Some(if ok then Finished(s.calls[i].kind) else Failure) else None
    case Released(i, rejected) => if At(s, i, id, Leaving) && rejected then Some(Rejection) else None
    case CommitReturned(i, ok) =>
      if i < |s.calls| && s.calls[i].Commit? && s.calls[i].profile == id && !s.calls[i].returned && ok
      then Some(Committed) else None
    case CancelDownload(other) => if other == id then Some(Canceled) else None
    case _ => None
  }

  /** The preview that is pending after an event; tests and comparisons leave it as it is. */
  function PendingAfter(event: Event, pending: Option<nat>, issued: nat): Option<nat> {
    match event
    case Finished(kind) =>
      if kind == PreviewDownload then Some(issued) else if kind == Test || kind == Compare then pending else None
    case _ => None
  }

  /** Each row goes by its own event, and by nothing else. */
  lemma RowTells(s: Sync, step: Step, id: Id)
    requires id in s.profiles
    ensures var t := Next(s, step);
            if step == Delete(id, true) && id !in s.running then id !in t.profiles
            else
              && id in t.profiles
              && (match EventOf(s, step, id)
                  case Some(event) =>
                    t.profiles[id] ==
                    Profile(Shown(event), PendingAfter(event, s.profiles[id].pending, s.issued),
                            s.profiles[id].configured)
                  case None =>
                    t.profiles[id] ==
                    if step.Update? && step.id == id then s.profiles[id].(configured := step.configured)
                    else s.profiles[id])
  {
    hide AbortAll;
  }

  /** A row appears when it is created, and in no other way. */
  lemma RowAppears(s: Sync, step: Step, id: Id)
    requires id !in s.profiles
    ensures var t := Next(s, step);
            if step.Create? && step.id == id
            then id in t.profiles && t.profiles[id] == Profile(Idle, None, step.configured)
            else id !in t.profiles
  {
    hide AbortAll;
  }

  // ----- calls and locks -----

  /** Where an operation stands after a step. */
  function PhaseAfter(s: Sync, i: nat, step: Step): Phase
    requires i < |s.calls| && s.calls[i].Locked?
  {
    var call := s.calls[i];
    match call.phase
    case AwaitingSecret =>
      if step.SecretArrived? && step.call == i then
        if step.found && !call.aborted && call.profile in s.profiles then Working else Gone
      else AwaitingSecret
    case Working =>
      if step.Returned? && step.call == i then
        if step.ok && call.kind != Backup then Leaving else Gone
      else Working
    case Leaving => if step.Released? && step.call == i then Gone else Leaving
    case Gone => Gone
  }

  /** The step tells call i to stop. */
  predicate Stops(s: Sync, i: nat, step: Step)
    requires i < |s.calls| && s.calls[i].Locked?
  {
    var id := s.calls[i].profile;
    match step
    case TimedOut(j) => j == i && Live(s.calls[i])
    case Abort(other) => other in s.running && s.running[other] == i && Live(s.calls[i])
    case CloseBegins => id in s.running && s.running[id] == i
    case _ => false
  }

  lemma CallTells(s: Sync, step: Step, i: nat)
    requires i < |s.calls|
    ensures i < |Next(s, step).calls|
    ensures s.calls[i].Locked? ==>
              Next(s, step).calls[i] ==
              s.calls[i].(phase := PhaseAfter(s, i, step), aborted := s.calls[i].aborted || Stops(s, i, step))
    ensures s.calls[i].Commit? ==>
              Next(s, step).calls[i] ==
              s.calls[i].(returned := s.calls[i].returned || (step.CommitReturned? && step.call == i))
  {
    hide SetRunState, Outcome;
  }

  /** An operation begins exactly on a profile that is free, known and configured, with a provider at hand. */
  predicate Begins(s: Sync, step: Step) {
    step.Begin? && step.id !in s.running && step.id in s.profiles && s.profiles[step.id].configured && step.available
  }

  /** A commit begins exactly for the preview that is pending. */
  predicate BeginsCommit(s: Sync, step: Step) {
    step.BeginCommit? && step.id in s.profiles
    && s.profiles[step.id].state == DownloadPreview && s.profiles[step.id].pending == Some(step.preview)
  }

  lemma CallsTell(s: Sync, step: Step)
    ensures Next(s, step).calls[..|s.calls|] == Next(s, step).calls || Begins(s, step) || BeginsCommit(s, step)
    ensures Begins(s, step) ==>
              && Next(s, step).calls ==
                 s.calls + [Locked(step.id, step.kind, if step.kind == Backup then Working else AwaitingSecret, false)]
              && Next(s, step).running == s.running[step.id := |s.calls|]
    ensures BeginsCommit(s, step) ==> Next(s, step).calls == s.calls + [Commit(step.id, step.preview, false)]
  {
    hide SetRunState, Outcome;
  }

  /** The step ends an operation on this profile. */
  predicate EndsOn(s: Sync, step: Step, id: Id) {
    exists i :: 0 <= i < |s.calls| && s.calls[i].Locked? && s.calls[i].profile == id && s.calls[i].phase != Gone
                && PhaseAfter(s, i, step) == Gone
  }

  /** Beside a begin, locks only go: with the end of an operation, or all of them when the service is closed. */
  lemma LockTells(s: Sync, step: Step, id: Id)
    requires !(Begins(s, step) && step.id == id)
    ensures var t := Next(s, step);
            && (id in t.running <==> id in s.running && step != CloseEnds && !EndsOn(s, step, id))
            && (id in t.running ==> t.running[id] == s.running[id])
  {
    hide SetRunState, Outcome;
    match step {
      case SecretArrived(i, _) => EndsAlone(s, step, i, id);
      case Returned(i, _) => EndsAlone(s, step, i, id);
      case Released(i, _) => EndsAlone(s, step, i, id);
      case _ =>
    }
  }

  /** Only the operation that a step is about can end with it. */
  lemma EndsAlone(s: Sync, step: Step, i: nat, id: Id)
    requires (step.SecretArrived? || step.Returned? || step.Released?) && step.call == i
    ensures EndsOn(s, step, id) <==>
            i < |s.calls| && s.calls[i].Locked? && s.calls[i].profile == id && s.calls[i].phase != Gone
            && PhaseAfter(s, i, step) == Gone
  {
  }

  // ----- over whole runs -----

  /** The last event that concerned a profile, while it has a row. */
  function LastEvent(trace: seq<Step>, rows: Profiles, id: Id): Option<Event> {
    if trace == [] then
      if id !in rows then None
      else if rows[id].state in {Checking, Uploading, DownloadPreview} then Some(Interrupted)
      else Some(Left(rows[id].state))
    else
      var init, step := trace[..|trace| - 1], trace[|trace| - 1];
      var s, last := After(init, rows), LastEvent(init, rows, id);
      if last.None? then (if step.Create? && step.id == id then Some(Created) else None)
      else if step == Delete(id, true) && id !in s.running then None
      else if EventOf(s, step, id).Some? then EventOf(s, step, id)
      else last
  }

  /** In every run a profile shows what the last event that concerned it means. */
  lemma {:induction false} StateTellsLastEvent(trace: seq<Step>, rows: Profiles, id: Id)
    ensures var s, last := After(trace, rows), LastEvent(trace, rows, id);
            && (id in s.profiles <==> last.Some?)
            && (last.Some? ==> s.profiles[id].state == Shown(last.value))
    decreases |trace|
  {
    if trace != [] {
      var init, step := trace[..|trace| - 1], trace[|trace| - 1];
      StateTellsLastEvent(init, rows, id);
      var s := After(init, rows);
      hide Next, EventOf;
      if id in s.profiles {
        RowTells(s, step, id);
      } else {
        RowAppears(s, step, id);
      }
    }
  }

  /** The events that leave a profile failed. */
  predicate Fails(event: Event) {
    event.Interrupted? || event.Aborted? || event.Failure? || event.Rejection? || event == Left(Failed)
  }

  /**
   A profile has failed exactly if the last thing that concerned it was a failure, an abort, a rejected result, or
   an interruption of an earlier run; or it was left failed by that run.
   */
  lemma FailedExactly(trace: seq<Step>, rows: Profiles, id: Id)
    requires id in After(trace, rows).profiles
    ensures LastEvent(trace, rows, id).Some?
    ensures After(trace, rows).profiles[id].state == Failed <==> Fails(LastEvent(trace, rows, id).value)
  {
    StateTellsLastEvent(trace, rows, id);
    hide After, LastEvent;
  }

  /** Pending previews have been issued, and no two profiles wait for the same one. */
  ghost predicate PreviewsIssued(s: Sync) {
    && (forall id :: id in s.profiles && s.profiles[id].pending.Some? ==> s.profiles[id].pending.value < s.issued)
    && (forall a, b :: a in s.profiles && b in s.profiles && a != b && s.profiles[a].pending.Some? ==>
          s.profiles[a].pending != s.profiles[b].pending)
  }

  lemma IssuedStep(s: Sync, step: Step)
    ensures Next(s, step).issued ==
            s.issued + if (exists id :: EventOf(s, step, id) == Some(Finished(PreviewDownload))) then 1 else 0
  {
    hide AbortAll, SetRunState, Outcome;
    if step.Returned? && step.call < |s.calls| && s.calls[step.call].Locked? {
      var call := s.calls[step.call];
      assert EventOf(s, step, call.profile).Some? || !At(s, step.call, call.profile, Working) || call.kind == Backup;
    }
  }

  lemma PreviewsStep(s: Sync, step: Step)
    requires PreviewsIssued(s)
    ensures PreviewsIssued(Next(s, step))
  {
    var t := Next(s, step);
    hide Next, EventOf;
    IssuedStep(s, step);
    forall id | id in t.profiles && t.profiles[id].pending.Some?
      ensures t.profiles[id].pending.value < t.issued
      ensures t.profiles[id].pending == Some(s.issued)
              || (id in s.profiles && s.profiles[id].pending == t.profiles[id].pending)
      ensures t.profiles[id].pending == Some(s.issued) ==> EventOf(s, step, id) == Some(Finished(PreviewDownload))
    {
      if id in s.profiles { RowTells(s, step, id); } else { RowAppears(s, step, id); }
    }
    forall a, b | EventOf(s, step, a) == Some(Finished(PreviewDownload))
                  && EventOf(s, step, b) == Some(Finished(PreviewDownload))
      ensures a == b
    {
      OneFinishes(s, step, a, b);
    }
  }

  lemma OneFinishes(s: Sync, step: Step, a: Id, b: Id)
    requires EventOf(s, step, a).Some? && EventOf(s, step, a).value.Finished?
    requires EventOf(s, step, b).Some? && EventOf(s, step, b).value.Finished?
    ensures a == b
  {
  }

  lemma StartPreviews(rows: Profiles)
    requires Settled(rows)
    ensures PreviewsIssued(Start(rows))
  {
    forall id | id in Start(rows).profiles ensures Start(rows).profiles[id].pending.None? {
      assert Start(rows).profiles[id] == Recover(rows[id]);
      match rows[id].state {
        case Idle =>
        case Checking =>
        case Uploading =>
        case DownloadPreview =>
        case Failed =>
      }
    }
  }

  /** In every run no two profiles wait for the same preview. */
  lemma {:induction false} PreviewsDistinct(trace: seq<Step>, rows: Profiles)
    requires Settled(rows)
    ensures PreviewsIssued(After(trace, rows))
    decreases |trace|
  {
    hide Next, PreviewsIssued, Start;
    if trace == [] {
      StartPreviews(rows);
    } else {
      PreviewsDistinct(trace[..|trace| - 1], rows);
      PreviewsStep(After(trace[..|trace| - 1], rows), trace[|trace| - 1]);
    }
  }
}
