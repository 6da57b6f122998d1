/** The budget of a work run: fifty steps and thirty minutes, not counting the time spent waiting for a human. */
module AiWorkBudget {
  import opened Common
  import opened ReviewedCommands

  const TIME_LIMIT := 1_800_000

  datatype Refusal = Aborted | StepLimit

  class Budget {
    var remaining: int
    var resumedAt: int
    /** When the timer is due; None while it is cleared. */
    var timer: Option<int>
    var paused: bool
    var steps: nat
    /** The time worked before resumedAt. */
    ghost var before: int

    ghost predicate Valid()
      reads this
    {
      && remaining == TIME_LIMIT - before
      && (paused ==> timer.None?)
      && (!paused && timer.Some? ==> timer.value == resumedAt + remaining)
    }

    /** The time worked until now, waiting excluded. */
    ghost function Worked(now: int): int
      reads this
    {
      if paused then before else before + now - resumedAt
    }

    constructor (now: int)
      ensures Valid() && !paused && timer.Some? && steps == 0 && Worked(now) == 0
    {
      remaining, paused, steps, before := TIME_LIMIT, false, 0, 0;
      resumedAt, timer := now, Some(now + TIME_LIMIT);
    }

    /** From here on no time is worked. */
    method Pause(now: int)
      requires Valid()
      modifies `remaining, `timer, `paused, `before
      ensures Valid() && paused && forall t :: Worked(t) == old(Worked(now))
    {
      if paused { return; }
      remaining := remaining - (now - resumedAt);
      before := before + now - resumedAt;
      timer := None;
      paused := true;
    }

    /** Working goes on where it was left. */
    method Resume(now: int)
      requires Valid()
      modifies `resumedAt, `timer, `paused
      ensures Valid() && !paused
      ensures old(paused) ==> timer.Some? && forall t :: Worked(t) == old(before) + t - now
      ensures !old(paused) ==> forall t :: Worked(t) == old(Worked(t))
    {
      if paused {
        paused := false;
        resumedAt := now;
        timer := Some(now + remaining);
      }
    }

    /** The armed timer is due exactly when thirty minutes have been worked. */
    method Due(now: int) returns (due: bool)
      requires Valid() && timer.Some?
      ensures due <==> Worked(now) >= TIME_LIMIT
    {
      due := timer.value <= now;
    }

    /** At most fifty steps are ever granted, none of them after an abort. */
    method Next(aborted: bool) returns (r: Result<nat, Refusal>)
      modifies `steps
      ensures r.Ok? <==> !aborted && old(steps) < MAX_STEPS
      ensures r.Ok? ==> r.value == steps == old(steps) + 1
      ensures steps == if aborted then old(steps) else old(steps) + 1
    {
      if aborted { return Err(Aborted); }
      steps := steps + 1;
      if steps > MAX_STEPS { return Err(StepLimit); }
      r := Ok(steps);
    }

    method Close()
      requires Valid()
      modifies `timer
      ensures Valid() && timer.None?
    {
      timer := None;
    }
  }
}
