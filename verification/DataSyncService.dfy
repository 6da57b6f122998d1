/** The sync service and its table of profiles, with one method for each step between two awaits. */
module DataSyncService {
  import opened Common
  import opened SyncLock

  class DataSync {
    var profiles: Profiles
    var running: map<Id, nat>
    var calls: seq<Call>
    var issued: nat
    ghost const rows: Profiles
    ghost var trace: seq<Step>

    ghost function Now(): Sync
      reads this
    {
      Sync(profiles, running, calls, issued)
    }

    ghost predicate Valid()
      reads this
    {
      Now() == After(trace, rows)
    }

    /** Starts on the rows of an earlier run; what was interrupted has failed. */
    constructor (rows: Profiles)
      ensures Valid() && this.rows == rows && trace == []
    {
      this.rows := rows;
      profiles, running, calls, issued := map id | id in rows :: Recover(rows[id]), map[], [], 0;
      trace := [];
    }

    method SetRunState(id: Id, state: RunState, pending: Option<nat>)
      modifies `profiles
      ensures profiles == SyncLock.SetRunState(old(profiles), id, state, Put(pending))
    {
      if id in profiles {
        profiles := profiles[id := profiles[id].(state := state, pending := pending)];
      }
    }

    /** The finally block of a locked operation. */
    method Finally(i: nat)
      requires i < |calls| && calls[i].Locked?
      modifies `running, `calls
      ensures Now() == Release(old(Now()), i)
    {
      running := running - {calls[i].profile};
      calls := calls[i := calls[i].(phase := Gone)];
    }

    /** The catch block of a locked operation, and its finally block. */
    method OperationFailed(i: nat)
      requires i < |calls| && calls[i].Locked?
      modifies `profiles, `running, `calls
      ensures Now() == FailCall(old(Now()), i)
    {
      SetRunState(calls[i].profile, Failed, None);
      Finally(i);
    }

    /** Takes the lock of a profile, or refuses a busy, missing or unconfigured one. */
    method BeginExclusive(id: Id, kind: Kind, available: bool) returns (started: bool)
      modifies `running, `calls
      ensures Now() == BeginStep(old(Now()), id, kind, available)
      ensures started <==> |calls| == |old(calls)| + 1
    {
      if id in running { return false; }
      if id !in profiles || !profiles[id].configured { return false; }
      if !available { return false; }
      running := running[id := |calls|];
      calls := calls + [Locked(id, kind, if kind == Backup then Working else AwaitingSecret, false)];
      started := true;
    }

    method SecretResolved(i: nat, found: bool)
      modifies `profiles, `running, `calls
      ensures Now() == SecretStep(old(Now()), i, found)
    {
      if i >= |calls| || !calls[i].Locked? || calls[i].phase != AwaitingSecret { return; }
      var call := calls[i];
      if !found {
        Finally(i);
      } else if call.aborted {
        OperationFailed(i);
      } else if call.profile !in profiles {
        Finally(i);
      } else {
        SetRunState(call.profile, RunningState(call.kind), None);
        calls := calls[i := call.(phase := Working)];
      }
    }

    method OperationReturned(i: nat, ok: bool)
      modifies `profiles, `running, `calls, `issued
      ensures Now() == ReturnedStep(old(Now()), i, ok)
    {
      if i >= |calls| || !calls[i].Locked? || calls[i].phase != Working { return; }
      var call := calls[i];
      if call.kind == Backup {
        Finally(i);
        return;
      }
      if !ok {
        OperationFailed(i);
        return;
      }
      if call.kind == PreviewDownload {
        SetRunState(call.profile, DownloadPreview, Some(issued));
        issued := issued + 1;
      } else if call.kind == Upload {
        SetRunState(call.profile, Idle, None);
      } else if call.profile in profiles {
        profiles := profiles[call.profile := profiles[call.profile].(state := Idle)];
      }
      calls := calls[i := call.(phase := Leaving)];
    }

    method OperationReleased(i: nat, rejected: bool)
      modifies `profiles, `running, `calls
      ensures Now() == ReleasedStep(old(Now()), i, rejected)
    {
      if i >= |calls| || !calls[i].Locked? || calls[i].phase != Leaving { return; }
      if rejected { OperationFailed(i); } else { Finally(i); }
    }

    /** Only the preview that is pending can be committed. */
    method BeginCommitDownload(id: Id, preview: nat) returns (started: bool)
      modifies `calls
      ensures Now() == BeginCommitStep(old(Now()), id, preview)
      ensures started <==>
                id in profiles && profiles[id].state == DownloadPreview && profiles[id].pending == Some(preview)
    {
      started := id in profiles && profiles[id].state == DownloadPreview && profiles[id].pending == Some(preview);
      if started { calls := calls + [Commit(id, preview, false)]; }
    }

    method CommitDownloadReturned(i: nat, ok: bool)
      modifies `profiles, `calls
      ensures Now() == CommitReturnedStep(old(Now()), i, ok)
    {
      if i >= |calls| || !calls[i].Commit? || calls[i].returned { return; }
      if ok { SetRunState(calls[i].profile, Idle, None); }
      calls := calls[i := calls[i].(returned := true)];
    }

    method AbortController(i: nat)
      modifies `calls
      ensures Now() == AbortCall(old(Now()), i)
    {
      if i < |calls| && Live(calls[i]) { calls := calls[i := calls[i].(aborted := true)]; }
    }

    method DeleteProfile(id: Id, current: bool)
      modifies `profiles
      ensures Now() == DeleteStep(old(Now()), id, current)
    {
      if id in running || id !in profiles || !current { return; }
      profiles := profiles - {id};
    }

    /** Aborts every running operation. */
    method AbortRunning()
      modifies `calls
      ensures calls == AbortAll(old(calls), running)
    {
      for i := 0 to |calls|
        invariant |calls| == |old(calls)|
        invariant forall k :: 0 <= k < i ==> calls[k] == AbortAll(old(calls), running)[k]
        invariant forall k :: i <= k < |calls| ==> calls[k] == old(calls)[k]
      {
        if calls[i].Locked? && calls[i].profile in running && running[calls[i].profile] == i {
          calls := calls[i := calls[i].(aborted := true)];
        }
      }
    }

    // ----- any interleaving -----

    method Perform(step: Step)
      modifies `profiles, `running, `calls, `issued
      ensures Now() == Next(old(Now()), step)
    {
      hide BeginStep, SecretStep, ReturnedStep, ReleasedStep, BeginCommitStep, CommitReturnedStep, DeleteStep,
        AbortCall, AbortAll;
      match step {
        case Begin(id, kind, available) => var _ := BeginExclusive(id, kind, available);
        case SecretArrived(i, found) => SecretResolved(i, found);
        case Returned(i, ok) => OperationReturned(i, ok);
        case Released(i, rejected) => OperationReleased(i, rejected);
        case BeginCommit(id, preview) => var _ := BeginCommitDownload(id, preview);
        case CommitReturned(i, ok) => CommitDownloadReturned(i, ok);
        case CancelDownload(id) => SetRunState(id, Idle, None);
        case Abort(id) => if id in running { AbortController(running[id]); }
        case TimedOut(i) => AbortController(i);
        case Create(id, configured) =>
          if id !in profiles { profiles := profiles[id := Profile(Idle, None, configured)]; }
        case Update(id, configured) =>
          if id in profiles { profiles := profiles[id := profiles[id].(configured := configured)]; }
        case Delete(id, current) => DeleteProfile(id, current);
        case CloseBegins => AbortRunning();
        case CloseEnds => running := map[];
      }
    }

    /** Whatever happens next, the object stays in the state its steps lead to. */
    method Take(step: Step)
      requires Valid()
      modifies this
      ensures Valid() && trace == old(trace) + [step]
    {
      hide After, Next;
      Perform(step);
      trace := trace + [step];
      AfterStep(old(trace), step, rows);
    }
  }
}
