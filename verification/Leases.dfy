/** How long a running task is left alone. */
module Leases {
  import opened Wrappers
  import opened Tables
  import opened Steps
  import opened Invariant
  import opened Lifecycle
  import opened Runs
  import Effects

  /** The request claims task i of build b, or is a heartbeat of the worker that runs it. */
  predicate Leases(s: Store, e: Event, b: int, i: int) {
    match e
    case Claim(_, _, _, _, task) => task.Some? && task.value.build == b && task.value.id == i
    case Heartbeat(worker, _) => IsTask(s, b, i) && Row(s, b, i).state == Running && Row(s, b, i).owner == Some(worker)
    case _ => false
  }

  function TimeOf(e: Event): int
    requires e.Claim? || e.Heartbeat?
  {
    if e.Claim? then e.claimedAt else e.seenAt
  }

  /**
    The task was claimed or renewed by event j, runs after the first k events, and was neither claimed nor renewed
    between.
   */
  ghost predicate LastLease(r: Run, j: nat, k: nat, b: nat, i: nat)
    requires k < |r.stores| == |r.events| + 1
  {
    && j < k && Leases(r.stores[j], r.events[j], b, i)
    && IsTask(r.stores[k], b, i) && Row(r.stores[k], b, i).state == Running
    && forall m :: j < m < k ==> !Leases(r.stores[m], r.events[m], b, i)
  }

  lemma LeaseGiven(cfg: Config, r: Run, j: nat, b: nat, i: nat)
    requires IsCalmRun(cfg, r) && j < |r.events| && Leases(r.stores[j], r.events[j], b, i)
    ensures IsTask(r.stores[j + 1], b, i)
    ensures Row(r.stores[j + 1], b, i).leaseUntil == TimeOf(r.events[j]) + cfg.leaseSeconds
  {
    hide Inv;
    assert StepAt(cfg, r, j);
    if r.events[j].Heartbeat? {
      Effects.HeartbeatRenews(cfg, r.stores[j], r.events[j], r.stores[j + 1], b, i);
    } else {
      Effects.ClaimTakes(cfg, r.stores[j], r.events[j], r.stores[j + 1], r.events[j].task.value);
    }
  }

  /** A task that runs after a request that neither claimed nor renewed it was running before, under the same lease. */
  lemma StillLeased(cfg: Config, r: Run, k: nat, b: nat, i: nat)
    requires IsCalmRun(cfg, r) && k < |r.events| && IsTask(r.stores[k], b, i)
    requires !Leases(r.stores[k], r.events[k], b, i)
    ensures IsTask(r.stores[k + 1], b, i)
    ensures Row(r.stores[k + 1], b, i).state == Running ==> Row(r.stores[k + 1], b, i) == Row(r.stores[k], b, i)
  {
    hide Inv, StepAt, CalmUpTo;
    MoveAt(cfg, r, k, b);
    assert RowStep(r.stores[k], r.events[k], b, i, Row(r.stores[k], b, i), r.stores[k + 1].builds[b].tasks[i]);
  }

  lemma {:induction false} LeaseLasts(cfg: Config, r: Run, j: nat, k: nat, b: nat, i: nat)
    requires IsCalmRun(cfg, r) && k < |r.stores| && LastLease(r, j, k, b, i)
    ensures Row(r.stores[k], b, i).leaseUntil == TimeOf(r.events[j]) + cfg.leaseSeconds
    decreases k
  {
    hide StepAt, CalmUpTo;
    LeaseGiven(cfg, r, j, b, i);
    if j + 1 < k {
      RowsLater(cfg, r, j + 1, k - 1, b, i);
      StillLeased(cfg, r, k - 1, b, i);
      LeaseLasts(cfg, r, j, k - 1, b, i);
    }
  }

  /**
    A running task that was last claimed or renewed at some time is taken by the reaper if and only if the reaper comes
    more than the length of a lease after that. It then has no owner.
   */
  lemma ReapedWhenSilent(cfg: Config, r: Run, j: nat, k: nat, b: nat, i: nat)
    requires IsCalmRun(cfg, r) && k < |r.events| && r.events[k].Reap? && LastLease(r, j, k, b, i)
    ensures IsTask(r.stores[k + 1], b, i)
    ensures Row(r.stores[k + 1], b, i) != Row(r.stores[k], b, i) <==>
            TimeOf(r.events[j]) + cfg.leaseSeconds < r.events[k].reapedAt
    ensures Row(r.stores[k + 1], b, i) != Row(r.stores[k], b, i) ==>
              Row(r.stores[k + 1], b, i).owner == None && Row(r.stores[k + 1], b, i).state != Running
  {
    hide Inv;
    LeaseLasts(cfg, r, j, k, b, i);
    RunKeeps(cfg, r, k);
    assert StepAt(cfg, r, k);
    Effects.ReapTakes(cfg, r.stores[k], r.events[k], r.stores[k + 1], b, i);
  }

  /** The last of the events from j on that claimed or renewed the task, before the first k events are over. */
  lemma {:induction false} FindLast(r: Run, j: nat, k: nat, b: nat, i: nat) returns (l: nat)
    requires j < k <= |r.events| <= |r.stores| && Leases(r.stores[j], r.events[j], b, i)
    ensures j <= l < k && Leases(r.stores[l], r.events[l], b, i)
    ensures forall m :: l < m < k ==> !Leases(r.stores[m], r.events[m], b, i)
    decreases k
  {
    if Leases(r.stores[k - 1], r.events[k - 1], b, i) {
      l := k - 1;
    } else {
      l := FindLast(r, j, k - 1, b, i);
    }
  }

  /**
    So where clocks do not run backwards, a task that was claimed or renewed at some time is not taken by any reaper
    that comes within the length of a lease.
   */
  lemma LeaseProtects(cfg: Config, r: Run, j: nat, k: nat, b: nat, i: nat)
    requires IsCalmRun(cfg, r) && j < k < |r.events| && r.events[k].Reap? && Leases(r.stores[j], r.events[j], b, i)
    requires forall m :: j < m < k && Leases(r.stores[m], r.events[m], b, i) ==>
               TimeOf(r.events[j]) <= TimeOf(r.events[m])
    requires r.events[k].reapedAt <= TimeOf(r.events[j]) + cfg.leaseSeconds
    ensures IsTask(r.stores[k], b, i) && IsTask(r.stores[k + 1], b, i)
    ensures Row(r.stores[k + 1], b, i) == Row(r.stores[k], b, i)
  {
    hide Inv;
    LeaseGiven(cfg, r, j, b, i);
    RowsLater(cfg, r, j + 1, k, b, i);
    if Row(r.stores[k], b, i).state == Running {
      var l := FindLast(r, j, k, b, i);
      ReapedWhenSilent(cfg, r, l, k, b, i);
    } else {
      RunKeeps(cfg, r, k);
      assert StepAt(cfg, r, k);
      Effects.ReapTakes(cfg, r.stores[k], r.events[k], r.stores[k + 1], b, i);
    }
  }
}
