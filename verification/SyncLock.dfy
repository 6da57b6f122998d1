/**
 Sync operations of many profiles: an operation holds its profile's lock from its first step to its last, while
 commits and cancellations of a download preview come and go without it. One step is what the service does
 between two awaits.
 */
module SyncLock {
  import opened Common

  datatype Id = Id(name: string)

  datatype RunState = Idle | Checking | Uploading | DownloadPreview | Failed

  datatype Profile = Profile(state: RunState, pending: Option<nat>, configured: bool)

  type Profiles = map<Id, Profile>

  datatype Kind = Test | Compare | Upload | PreviewDownload | Backup

  datatype Phase = AwaitingSecret | Working | Leaving | Gone

  /** The calls that were started; a locked one is its own abort controller. */
  datatype Call =
    | Locked(profile: Id, kind: Kind, phase: Phase, aborted: bool)
    | Commit(profile: Id, preview: nat, returned: bool)

  datatype Sync = Sync(profiles: Profiles, running: map<Id, nat>, calls: seq<Call>, issued: nat)

  datatype Step =
    | Begin(id: Id, kind: Kind, available: bool)
    | SecretArrived(call: nat, found: bool)
    | Returned(call: nat, ok: bool)
    | Released(call: nat, rejected: bool)
    | BeginCommit(id: Id, preview: nat)
    | CommitReturned(call: nat, ok: bool)
    | CancelDownload(id: Id)
    | Abort(id: Id)
    | TimedOut(call: nat)
    | Create(id: Id, configured: bool)
    | Update(id: Id, configured: bool)
    | Delete(id: Id, current: bool)
    | CloseBegins
    | CloseEnds

  // ----- rows -----

  datatype Change = Keep | Put(pending: Option<nat>)

  /** Without the row the request fails and nothing changes. */
  function SetRunState(profiles: Profiles, id: Id, state: RunState, change: Change): Profiles {
    if id !in profiles then profiles else
      var pending := if change.Put? then change.pending else profiles[id].pending;
      profiles[id := profiles[id].(state := state, pending := pending)]
  }

  /** What a start of the service makes of a row that an earlier run has left. */
  function Recover(row: Profile): Profile {
    if row.state in {Checking, Uploading, DownloadPreview} then row.(state := Failed, pending := None) else row
  }

  function RunningState(kind: Kind): RunState {
    if kind == Upload then Uploading else Checking
  }

  // ----- steps -----

  predicate Live(call: Call) {
    call.Locked? && call.phase != Gone
  }

  /** The end of a locked call gives up whatever lock its profile has. */
  function Release(s: Sync, i: nat): Sync
    requires i < |s.calls| && s.calls[i].Locked?
  {
    s.(running := s.running - {s.calls[i].profile}, calls := s.calls[i := s.calls[i].(phase := Gone)])
  }

  function BeginStep(s: Sync, id: Id, kind: Kind, available: bool): Sync {
    if id in s.running || id !in s.profiles || !s.profiles[id].configured || !available then s else
      s.(running := s.running[id := |s.calls|],
         calls := s.calls + [Locked(id, kind, if kind == Backup then Working else AwaitingSecret, false)])
  }

  function SecretStep(s: Sync, i: nat, found: bool): Sync {
    if i >= |s.calls| || !s.calls[i].Locked? || s.calls[i].phase != AwaitingSecret then s else
      var call := s.calls[i];
      if !found then Release(s, i)
      else if call.aborted then FailCall(s, i)
      else if call.profile !in s.profiles then Release(s, i)
      else s.(profiles := SetRunState(s.profiles, call.profile, RunningState(call.kind), Put(None)),
              calls := s.calls[i := call.(phase := Working)])
  }

  function Outcome(s: Sync, call: Call): Profiles
    requires call.Locked?
  {
    match call.kind
    case PreviewDownload => SetRunState(s.profiles, call.profile, DownloadPreview, Put(Some(s.issued)))
    case Upload => SetRunState(s.profiles, call.profile, Idle, Put(None))
    case _ => SetRunState(s.profiles, call.profile, Idle, Keep)
  }

  /** A failed operation leaves a failed profile and gives up the lock. */
  function FailCall(s: Sync, i: nat): Sync
    requires i < |s.calls| && s.calls[i].Locked?
  {
    Release(s.(profiles := SetRunState(s.profiles, s.calls[i].profile, Failed, Put(None))), i)
  }

  function ReturnedStep(s: Sync, i: nat, ok: bool): Sync {
    if i >= |s.calls| || !s.calls[i].Locked? || s.calls[i].phase != Working then s else
      var call := s.calls[i];
      if call.kind == Backup then Release(s, i)
      else if !ok then FailCall(s, i)
      else s.(profiles := Outcome(s, call), calls := s.calls[i := call.(phase := Leaving)],
              issued := if call.kind == PreviewDownload then s.issued + 1 else s.issued)
  }

  /** A result that is stored may still be rejected, as not fit to be returned. */
  function ReleasedStep(s: Sync, i: nat, rejected: bool): Sync {
    if i >= |s.calls| || !s.calls[i].Locked? || s.calls[i].phase != Leaving then s
    else if rejected then FailCall(s, i) else Release(s, i)
  }

  function BeginCommitStep(s: Sync, id: Id, preview: nat): Sync {
    if id !in s.profiles || s.profiles[id].state != DownloadPreview || s.profiles[id].pending != Some(preview) then s
    else s.(calls := s.calls + [Commit(id, preview, false)])
  }

  function CommitReturnedStep(s: Sync, i: nat, ok: bool): Sync {
    if i >= |s.calls| || !s.calls[i].Commit? || s.calls[i].returned then s else
      var call := s.calls[i];
      s.(profiles := if ok then SetRunState(s.profiles, call.profile, Idle, Put(None)) else s.profiles,
         calls := s.calls[i := call.(returned := true)])
  }

  function AbortCall(s: Sync, i: nat): Sync {
    if i >= |s.calls| || !Live(s.calls[i]) then s else s.(calls := s.calls[i := s.calls[i].(aborted := true)])
  }

  /** Every call that a lock stands for is told to stop. */
  function AbortAll(calls: seq<Call>, running: map<Id, nat>): (r: seq<Call>)
    ensures |r| == |calls|
    ensures forall i :: 0 <= i < |calls| ==>
              r[i] == if calls[i].Locked? && calls[i].profile in running && running[calls[i].profile] == i
                      then calls[i].(aborted := true) else calls[i]
  {
    seq(|calls|, i requires 0 <= i < |calls| =>
      if calls[i].Locked? && calls[i].profile in running && running[calls[i].profile] == i
      then calls[i].(aborted := true) else calls[i])
  }

  function DeleteStep(s: Sync, id: Id, current: bool): Sync {
    if id in s.running || id !in s.profiles || !current then s else s.(profiles := s.profiles - {id})
  }

  function Next(s: Sync, step: Step): Sync {
    match step
    case Begin(id, kind, available) => BeginStep(s, id, kind, available)
    case SecretArrived(i, found) => SecretStep(s, i, found)
    case Returned(i, ok) => ReturnedStep(s, i, ok)
    case Released(i, rejected) => ReleasedStep(s, i, rejected)
    case BeginCommit(id, preview) => BeginCommitStep(s, id, preview)
    case CommitReturned(i, ok) => CommitReturnedStep(s, i, ok)
    case CancelDownload(id) => s.(profiles := SetRunState(s.profiles, id, Idle, Put(None)))
    case Abort(id) => if id in s.running then AbortCall(s, s.running[id]) else s
    case TimedOut(i) => AbortCall(s, i)
    case Create(id, configured) =>
      if id in s.profiles then s else s.(profiles := s.profiles[id := Profile(Idle, None, configured)])
    case Update(id, configured) =>
      if id !in s.profiles then s else s.(profiles := s.profiles[id := s.profiles[id].(configured := configured)])
    case Delete(id, current) => DeleteStep(s, id, current)
    case CloseBegins => s.(calls := AbortAll(s.calls, s.running))
    case CloseEnds => s.(running := map[])
  }

  /** The rows an earlier run has left, as the service starts on them. */
  function Start(rows: Profiles): Sync {
    Sync(map id | id in rows :: Recover(rows[id]), map[], [], 0)
  }

  function After(trace: seq<Step>, rows: Profiles): Sync {
    if trace == [] then Start(rows) else Next(After(trace[..|trace| - 1], rows), trace[|trace| - 1])
  }

  // ----- what the lock is for -----

  /** Every operation in flight holds the lock of its profile. */
  ghost predicate Held(s: Sync) {
    forall i :: 0 <= i < |s.calls| && Live(s.calls[i]) ==>
                  s.calls[i].profile in s.running && s.running[s.calls[i].profile] == i
  }

  ghost predicate NoOverlap(s: Sync) {
    forall i, j :: 0 <= i < j < |s.calls| && Live(s.calls[i]) && Live(s.calls[j]) ==>
                     s.calls[i].profile != s.calls[j].profile
  }

  predicate PendingMatches(row: Profile) {
    row.pending.Some? <==> row.state == DownloadPreview
  }

  ghost predicate PendingExact(profiles: Profiles) {
    forall id :: id in profiles ==> PendingMatches(profiles[id])
  }

  /** A profile at work has its lock held by the operation that put it to work. */
  predicate AtWorkLocked(s: Sync, id: Id)
    requires id in s.profiles
  {
    s.profiles[id].state in {Checking, Uploading} ==>
      && id in s.running && s.running[id] < |s.calls| && s.calls[s.running[id]].Locked?
      && s.calls[s.running[id]].phase == Working && s.calls[s.running[id]].kind != Backup
      && s.profiles[id].state == RunningState(s.calls[s.running[id]].kind)
  }

  /** While an operation on the data is at work, no preview is pending; a backup needs no secret first. */
  predicate CallSound(s: Sync, call: Call) {
    call.Locked? && call.phase == Working && call.kind != Backup && call.profile in s.profiles ==>
      s.profiles[call.profile].pending.None?
  }

  predicate BackupSound(call: Call) {
    call.Locked? && call.kind == Backup ==> call.phase in {Working, Gone}
  }

  ghost predicate Inv(s: Sync) {
    && Held(s) && PendingExact(s.profiles)
    && (forall i :: 0 <= i < |s.calls| ==> CallSound(s, s.calls[i]) && BackupSound(s.calls[i]))
    && (forall id :: id in s.profiles ==> AtWorkLocked(s, id))
    && (forall id :: id in s.running ==>
          && id in s.profiles && s.running[id] < |s.calls|
          && Live(s.calls[s.running[id]]) && s.calls[s.running[id]].profile == id)
  }

  predicate NoneInFlight(s: Sync) {
    forall i :: 0 <= i < |s.calls| ==> !Live(s.calls[i])
  }

  /** The service is only shut down once nothing is running. */
  ghost predicate Orderly(trace: seq<Step>, rows: Profiles) {
    forall k :: 0 <= k < |trace| && trace[k].CloseEnds? ==> NoneInFlight(After(trace[..k], rows))
  }

  /** Rows as a run leaves them: a preview is pending only where the row says so. */
  ghost predicate Settled(rows: Profiles) {
    forall id :: id in rows && rows[id].state in {Idle, Failed} ==> rows[id].pending.None?
  }

  // ----- each step keeps the invariant -----

  lemma ReleaseKeeps(s: Sync, i: nat)
    requires Inv(s) && i < |s.calls| && Live(s.calls[i])
    requires s.calls[i].profile in s.profiles && s.profiles[s.calls[i].profile].state !in {Checking, Uploading}
    ensures Inv(Release(s, i))
  {
  }

  /** Any call may put its row to rest. */
  lemma RowKeeps(s: Sync, id: Id, state: RunState)
    requires Inv(s) && state in {Idle, Failed}
    ensures Inv(s.(profiles := SetRunState(s.profiles, id, state, Put(None))))
  {
  }

  lemma BeginKeeps(s: Sync, id: Id, kind: Kind, available: bool)
    requires Inv(s)
    ensures Inv(BeginStep(s, id, kind, available))
  {
  }

  lemma FailKeeps(s: Sync, i: nat)
    requires Inv(s) && i < |s.calls| && Live(s.calls[i]) && s.calls[i].profile in s.profiles
    ensures Inv(FailCall(s, i))
  {
    RowKeeps(s, s.calls[i].profile, Failed);
    ReleaseKeeps(s.(profiles := SetRunState(s.profiles, s.calls[i].profile, Failed, Put(None))), i);
  }

  lemma SecretKeeps(s: Sync, i: nat, found: bool)
    requires Inv(s)
    ensures Inv(SecretStep(s, i, found))
  {
    if i < |s.calls| && s.calls[i].Locked? && s.calls[i].phase == AwaitingSecret {
      assert AtWorkLocked(s, s.calls[i].profile);
      FailKeeps(s, i);
      ReleaseKeeps(s, i);
      WorkKeeps(s, i);
    }
  }

  lemma WorkKeeps(s: Sync, i: nat)
    requires Inv(s) && i < |s.calls| && s.calls[i].Locked? && s.calls[i].phase == AwaitingSecret
    ensures var call := s.calls[i];
            Inv(s.(profiles := SetRunState(s.profiles, call.profile, RunningState(call.kind), Put(None)),
                   calls := s.calls[i := call.(phase := Working)]))
  {
  }

  lemma ReturnedKeeps(s: Sync, i: nat, ok: bool)
    requires Inv(s)
    ensures Inv(ReturnedStep(s, i, ok))
  {
    if i < |s.calls| && s.calls[i].Locked? && s.calls[i].phase == Working {
      assert AtWorkLocked(s, s.calls[i].profile);
      if s.calls[i].kind == Backup {
        ReleaseKeeps(s, i);
      } else if ok {
        LeavingKeeps(s, i);
      } else {
        FailKeeps(s, i);
      }
    }
  }

  lemma LeavingKeeps(s: Sync, i: nat)
    requires Inv(s) && i < |s.calls| && s.calls[i].Locked? && s.calls[i].phase == Working && s.calls[i].kind != Backup
    ensures Inv(ReturnedStep(s, i, true))
  {
    hide Release;
    var call := s.calls[i];
    var after := ReturnedStep(s, i, true);
    assert s.running == after.running && call.profile in s.profiles;
    forall id | id in s.profiles ensures AtWorkLocked(after, id) && PendingMatches(after.profiles[id]) {
      assert AtWorkLocked(s, id) && PendingMatches(s.profiles[id]);
    }
  }

  lemma CommitKeeps(s: Sync, i: nat, ok: bool)
    requires Inv(s)
    ensures Inv(CommitReturnedStep(s, i, ok))
  {
  }

  lemma BeginCommitKeeps(s: Sync, id: Id, preview: nat)
    requires Inv(s)
    ensures Inv(BeginCommitStep(s, id, preview))
  {
  }

  lemma AbortKeeps(s: Sync, i: nat)
    requires Inv(s)
    ensures Inv(AbortCall(s, i))
  {
  }

  lemma AbortAllKeeps(s: Sync)
    requires Inv(s)
    ensures Inv(s.(calls := AbortAll(s.calls, s.running)))
  {
    var after := s.(calls := AbortAll(s.calls, s.running));
    forall i | 0 <= i < |s.calls|
      ensures Live(after.calls[i]) <==> Live(s.calls[i])
      ensures s.calls[i].Locked? ==> after.calls[i].(aborted := s.calls[i].aborted) == s.calls[i]
    {
    }
    forall id | id in s.profiles ensures AtWorkLocked(after, id) {
      assert AtWorkLocked(s, id);
    }
  }

  lemma AdminKeeps(s: Sync, step: Step)
    requires Inv(s) && (step.Create? || step.Update? || step.Delete?)
    ensures Inv(Next(s, step))
  {
    hide BeginStep, SecretStep, ReturnedStep, ReleasedStep, BeginCommitStep, CommitReturnedStep, AbortCall, AbortAll;
  }

  lemma NothingLocked(s: Sync)
    requires Inv(s) && NoneInFlight(s)
    ensures s.running == map[]
  {
    forall id ensures id !in s.running {
    }
  }

  lemma {:induction false} StepKeeps(s: Sync, step: Step)
    requires Inv(s) && (step.CloseEnds? ==> NoneInFlight(s))
    ensures Inv(Next(s, step))
  {
    match step
    case Begin(id, kind, available) => BeginKeeps(s, id, kind, available);
    case SecretArrived(i, found) => SecretKeeps(s, i, found);
    case Returned(i, ok) => ReturnedKeeps(s, i, ok);
    case Released(i, rejected) => ReleasedKeeps(s, i, rejected);
    case BeginCommit(id, preview) => BeginCommitKeeps(s, id, preview);
    case CommitReturned(i, ok) => CommitKeeps(s, i, ok);
    case CancelDownload(id) => RowKeeps(s, id, Idle);
    case Abort(id) => if id in s.running { AbortKeeps(s, s.running[id]); }
    case TimedOut(i) => AbortKeeps(s, i);
    case Create(_, _) => AdminKeeps(s, step);
    case Update(_, _) => AdminKeeps(s, step);
    case Delete(_, _) => AdminKeeps(s, step);
    case CloseBegins => AbortAllKeeps(s);
    case CloseEnds => NothingLocked(s);
  }

  lemma ReleasedKeeps(s: Sync, i: nat, rejected: bool)
    requires Inv(s)
    ensures Inv(ReleasedStep(s, i, rejected))
  {
    if i < |s.calls| && s.calls[i].Locked? && s.calls[i].phase == Leaving {
      assert AtWorkLocked(s, s.calls[i].profile);
      FailKeeps(s, i);
      ReleaseKeeps(s, i);
    }
  }

  // ----- over whole runs -----

  lemma StartKeeps(rows: Profiles)
    requires Settled(rows)
    ensures Inv(Start(rows))
  {
  }

  /**
   In every orderly run a profile shown as checking or uploading has its lock held by the operation that is
   doing so, a preview is pending exactly in the state download-preview, and no two operations of one profile
   overlap.
   */
  lemma {:induction false} LockProtects(trace: seq<Step>, rows: Profiles)
    requires Settled(rows) && Orderly(trace, rows)
    ensures Inv(After(trace, rows)) && NoOverlap(After(trace, rows))
    decreases |trace|
  {
    hide Next, Start;
    if trace == [] {
      StartKeeps(rows);
    } else {
      hide Inv;
      var n := |trace| - 1;
      forall k | 0 <= k < n && trace[..n][k].CloseEnds? ensures NoneInFlight(After(trace[..n][..k], rows)) {
        assert trace[..n][..k] == trace[..k];
      }
      LockProtects(trace[..n], rows);
      assert trace[..n] == trace[..|trace| - 1];
      StepKeeps(After(trace[..n], rows), trace[n]);
    }
    HeldApart(After(trace, rows));
  }

  lemma HeldApart(s: Sync)
    ensures Inv(s) ==> NoOverlap(s)
  {
  }

  /** The rows of an orderly run are fit for the next start. */
  lemma Restart(trace: seq<Step>, rows: Profiles)
    requires Settled(rows) && Orderly(trace, rows)
    ensures Settled(After(trace, rows).profiles)
  {
    LockProtects(trace, rows);
    var s := After(trace, rows);
    forall id | id in s.profiles ensures PendingMatches(s.profiles[id]) {
    }
  }

  /** Every operation holds its lock at every moment of a run exactly when no close ends while one is in flight. */
  lemma {:induction false} HeldThroughout(trace: seq<Step>, rows: Profiles)
    requires Settled(rows)
    ensures (forall k :: 0 <= k <= |trace| ==> Held(After(trace[..k], rows))) <==> Orderly(trace, rows)
  {
    hide Next, Start, Held, NoneInFlight, Inv;
    if Orderly(trace, rows) {
      forall k | 0 <= k <= |trace| ensures Held(After(trace[..k], rows)) {
        forall j | 0 <= j < k && trace[..k][j].CloseEnds? ensures NoneInFlight(After(trace[..k][..j], rows)) {
          assert trace[..k][..j] == trace[..j];
        }
        LockProtects(trace[..k], rows);
        InvHeld(After(trace[..k], rows));
      }
    }
    if forall k :: 0 <= k <= |trace| ==> Held(After(trace[..k], rows)) {
      forall k | 0 <= k < |trace| && trace[k].CloseEnds? ensures NoneInFlight(After(trace[..k], rows)) {
        assert trace[..k + 1][..k] == trace[..k] && trace[..k + 1][k] == trace[k];
        assert Held(After(trace[..k + 1], rows));
        ClosedHeld(After(trace[..k], rows));
      }
    }
  }

  lemma InvHeld(s: Sync)
    requires Inv(s)
    ensures Held(s)
  {
  }

  lemma ClosedHeld(s: Sync)
    requires Held(Next(s, CloseEnds))
    ensures NoneInFlight(s)
  {
    var closed := Next(s, CloseEnds);
    assert closed.calls == s.calls;
  }

  // ----- pending previews -----

  /** What makes a profile forget its pending preview. */
  predicate Forgets(s: Sync, id: Id, step: Step) {
    match step
    case CancelDownload(other) => other == id
    case Delete(other, current) => other == id && current && id !in s.running
    case SecretArrived(i, found) =>
      && found && i < |s.calls| && s.calls[i].Locked? && s.calls[i].phase == AwaitingSecret && s.calls[i].profile == id
    case Released(i, rejected) =>
      rejected && i < |s.calls| && s.calls[i].Locked? && s.calls[i].phase == Leaving && s.calls[i].profile == id
    case CommitReturned(i, ok) =>
      ok && i < |s.calls| && s.calls[i].Commit? && !s.calls[i].returned && s.calls[i].profile == id
    case _ => false
  }

  ghost predicate IsPending(s: Sync, id: Id, preview: nat) {
    id in s.profiles && s.profiles[id].pending == Some(preview)
  }

  /**
   A pending preview is kept until it is canceled, its row is deleted, an operation of the profile gets to
   work, is found aborted or is rejected, or a commit of the profile returns, and each of these forgets it.
   */
  lemma PreviewForgotten(s: Sync, id: Id, preview: nat, step: Step)
    requires Inv(s) && IsPending(s, id, preview)
    ensures !IsPending(Next(s, step), id, preview) <==> Forgets(s, id, step)
  {
    hide AbortAll, Live;
    if step.Returned? {
      ReturnedElsewhere(s, id, step.call, step.ok);
    }
  }

  lemma ReturnedElsewhere(s: Sync, id: Id, i: nat, ok: bool)
    requires Inv(s) && id in s.profiles && s.profiles[id].pending.Some?
    ensures id in ReturnedStep(s, i, ok).profiles && ReturnedStep(s, i, ok).profiles[id] == s.profiles[id]
  {
  }

  // ----- runs in which a promise fails -----

  lemma AfterStep(trace: seq<Step>, step: Step, rows: Profiles)
    ensures After(trace + [step], rows) == Next(After(trace, rows), step)
  {
    assert (trace + [step])[..|trace|] == trace;
  }

  function CloseEarly(id: Id): seq<Step> {
    [Begin(id, Test, true), SecretArrived(0, true), CloseBegins, CloseEnds]
  }

  function ThenPreview(id: Id): seq<Step> {
    CloseEarly(id) + [Begin(id, PreviewDownload, true)]
  }

  function ThenBothReturn(id: Id): seq<Step> {
    ThenPreview(id) + [SecretArrived(1, true)] + [Returned(1, true)] + [Returned(0, true)]
  }

  /**
   A close while an operation is in flight undoes all three promises: the profile is shown as checking with no
   lock, a second operation starts beside the first, and the first leaves an idle profile with a preview.
   */
  lemma CloseMidFlight(id: Id, rows: Profiles)
    requires rows == map[id := Profile(Idle, None, true)]
    ensures var s := After(CloseEarly(id), rows);
            id in s.profiles && s.profiles[id].state == Checking && id !in s.running
    ensures !NoOverlap(After(ThenPreview(id), rows))
    ensures var s := After(ThenBothReturn(id), rows);
            id in s.profiles && s.profiles[id].state == Idle && s.profiles[id].pending == Some(0)
  {
    var early := EarlyClosed(id, rows);
    AfterStep(CloseEarly(id), Begin(id, PreviewDownload, true), rows);
    var two := Next(early, Begin(id, PreviewDownload, true));
    assert Live(two.calls[0]) && Live(two.calls[1]) && two.calls[0].profile == two.calls[1].profile;
    AfterStep(ThenPreview(id), SecretArrived(1, true), rows);
    AfterStep(ThenPreview(id) + [SecretArrived(1, true)], Returned(1, true), rows);
    AfterStep(ThenPreview(id) + [SecretArrived(1, true)] + [Returned(1, true)], Returned(0, true), rows);
    hide After;
  }

  lemma EarlyClosed(id: Id, rows: Profiles) returns (s: Sync)
    requires rows == map[id := Profile(Idle, None, true)]
    ensures s == After(CloseEarly(id), rows)
    ensures s == Sync(map[id := Profile(Checking, None, true)], map[], [Locked(id, Test, Working, true)], 0)
  {
    var s0 := After([], rows);
    assert s0.profiles == rows;
    var s1 := Next(s0, Begin(id, Test, true));
    AfterStep([], Begin(id, Test, true), rows);
    var s2 := Next(s1, SecretArrived(0, true));
    AfterStep([] + [Begin(id, Test, true)], SecretArrived(0, true), rows);
    var s3 := Next(s2, CloseBegins);
    AfterStep([] + [Begin(id, Test, true)] + [SecretArrived(0, true)], CloseBegins, rows);
    s := Next(s3, CloseEnds);
    AfterStep([] + [Begin(id, Test, true)] + [SecretArrived(0, true)] + [CloseBegins], CloseEnds, rows);
    assert CloseEarly(id) == [] + [Begin(id, Test, true)] + [SecretArrived(0, true)] + [CloseBegins] + [CloseEnds];
    assert s2.calls == [Locked(id, Test, Working, false)] && s2.running == map[id := 0];
    assert s3.calls == [Locked(id, Test, Working, true)];
    assert s2.profiles == map[id := Profile(Checking, None, true)];
  }

  function Downloaded(id: Id): seq<Step> {
    [] + [Begin(id, PreviewDownload, true)] + [SecretArrived(0, true)] + [Returned(0, true)]
  }

  function CommitStarted(id: Id): seq<Step> {
    Downloaded(id) + [Released(0, false)] + [BeginCommit(id, 0)] + [Begin(id, PreviewDownload, true)]
  }

  function DownloadedAgain(id: Id): seq<Step> {
    CommitStarted(id) + [SecretArrived(2, true)] + [Returned(2, true)]
  }

  lemma FirstDownload(id: Id, rows: Profiles)
    requires rows == map[id := Profile(Idle, None, true)]
    ensures After(Downloaded(id), rows) ==
            Sync(map[id := Profile(DownloadPreview, Some(0), true)], map[id := 0],
                 [Locked(id, PreviewDownload, Leaving, false)], 1)
  {
    var s0 := After([], rows);
    assert s0.profiles == rows;
    var s1 := Next(s0, Begin(id, PreviewDownload, true));
    AfterStep([], Begin(id, PreviewDownload, true), rows);
    AfterStep([] + [Begin(id, PreviewDownload, true)], SecretArrived(0, true), rows);
    var s2 := Next(s1, SecretArrived(0, true));
    assert s2.calls == [Locked(id, PreviewDownload, Working, false)] && s2.running == map[id := 0];
    AfterStep([] + [Begin(id, PreviewDownload, true)] + [SecretArrived(0, true)], Returned(0, true), rows);
  }

  lemma SecondDownload(id: Id, rows: Profiles)
    requires rows == map[id := Profile(Idle, None, true)]
    ensures After(CommitStarted(id), rows) ==
            Sync(map[id := Profile(DownloadPreview, Some(0), true)], map[id := 2],
                 [Locked(id, PreviewDownload, Gone, false), Commit(id, 0, false),
                  Locked(id, PreviewDownload, AwaitingSecret, false)], 1)
  {
    FirstDownload(id, rows);
    var t0 := Downloaded(id);
    AfterStep(t0, Released(0, false), rows);
    AfterStep(t0 + [Released(0, false)], BeginCommit(id, 0), rows);
    AfterStep(t0 + [Released(0, false)] + [BeginCommit(id, 0)], Begin(id, PreviewDownload, true), rows);
    hide After;
    var s1 := After(t0 + [Released(0, false)], rows);
    assert s1.running == map[] && s1.calls == [Locked(id, PreviewDownload, Gone, false)];
  }

  lemma SecondReturned(id: Id, rows: Profiles)
    requires rows == map[id := Profile(Idle, None, true)]
    ensures var s := After(DownloadedAgain(id), rows);
            IsPending(s, id, 1) && |s.calls| == 3 && s.calls[1] == Commit(id, 0, false)
  {
    SecondDownload(id, rows);
    var t := CommitStarted(id);
    AfterStep(t, SecretArrived(2, true), rows);
    AfterStep(t + [SecretArrived(2, true)], Returned(2, true), rows);
    hide After, Downloaded;
  }

  /**
   A commit that returns late forgets a preview that is not its own: the second preview of this run is never
   committed and never canceled, and yet gone.
   */
  lemma CommitReturnsLate(id: Id, rows: Profiles)
    requires rows == map[id := Profile(Idle, None, true)]
    ensures IsPending(After(DownloadedAgain(id), rows), id, 1)
    ensures !IsPending(After(DownloadedAgain(id) + [CommitReturned(1, true)], rows), id, 1)
    ensures Orderly(DownloadedAgain(id) + [CommitReturned(1, true)], rows)
    ensures BeginCommit(id, 1) !in DownloadedAgain(id) && CancelDownload(id) !in DownloadedAgain(id)
  {
    SecondReturned(id, rows);
    AfterStep(DownloadedAgain(id), CommitReturned(1, true), rows);
    hide After;
  }
}
