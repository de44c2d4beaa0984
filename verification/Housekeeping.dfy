/** Retention and recovery over whole runs: what is deleted, and what a restart leaves. */
module Housekeeping {
  import opened Wrappers
  import opened JobTable
  import opened JobProtocol
  import opened Ownership

  // ----- Retention -----------------------------------------------------------------------------

  /** An earlier scan listed the job for its cutoff, and the job, unless it is gone, ended before that. */
  ghost predicate Listed(tr: seq<Sys>, steps: seq<Step>, i: nat, m: nat, k: JobId) {
    && m < i <= |steps| < |tr| && steps[m].RetentionScan? && k in steps[m].ids
    && (k in tr[i].db.jobs ==>
          && IsTerminal(tr[i].db.jobs[k].state) && tr[i].db.jobs[k].completedAt.Some?
          && tr[i].db.jobs[k].completedAt.value < steps[m].cutoff)
  }

  lemma {:induction false} PrunedWasListed(cfg: Config, tr: seq<Sys>, steps: seq<Step>, i: nat, k: JobId)
    returns (m: nat)
    requires Run(cfg, tr, steps) && AlwaysTimely(cfg, tr) && i <= |steps| && k in tr[i].pruning
    ensures Listed(tr, steps, i, m, k)
  {
    assert i > 0;
    var j := i - 1;
    assert Takes(cfg, tr[j], steps[j], tr[i]);
    if steps[j].RetentionScan? {
      ScanLists(cfg, tr[j], steps[j], k);
      m := j;
    } else {
      PruningShrinks(cfg, tr[j], steps[j], k);
      m := PrunedWasListed(cfg, tr, steps, j, k);
      RunsKeepInv(cfg, tr, steps, j);
      assert JobOk(tr[j], k);
      FinishedStays(cfg, tr[j], steps[j], k);
    }
  }

  lemma ScanLists(cfg: Config, s: Sys, step: Step, k: JobId)
    requires Enabled(cfg, s, step) && step.RetentionScan? && k in Next(cfg, s, step).pruning
    ensures k in step.ids && Expired(s.db, k, step.cutoff) && Next(cfg, s, step).db == s.db
  {
  }

  lemma PruningShrinks(cfg: Config, s: Sys, step: Step, k: JobId)
    requires Enabled(cfg, s, step) && !step.RetentionScan? && k in Next(cfg, s, step).pruning
    ensures k in s.pruning
  {
  }

  /** A job whose id is used up is not created again, and once it ended its row stays as it is. */
  lemma FinishedStays(cfg: Config, s: Sys, step: Step, k: JobId)
    requires Enabled(cfg, s, step) && k in s.used && (k in s.db.jobs ==> IsTerminal(s.db.jobs[k].state))
    ensures var db' := Next(cfg, s, step).db; k in db'.jobs ==> k in s.db.jobs && db'.jobs[k] == s.db.jobs[k]
  {
    NextDb(cfg, s, step);
    var write := Write(cfg, s, step);
    if write.Some? {
      NotCreated(s.db, write.value, k);
      if k in s.db.jobs { ApplyKeepsFinal(s.db, write.value, k); }
    }
  }

  lemma NotCreated(db: Db, op: Op, k: JobId)
    requires op.OpCreate? ==> op.id != k
    ensures k in Apply(db, op).jobs ==> k in db.jobs
  {
    match op
    case OpMark(_, _, _) =>
    case OpClaim(_, _, _, _) =>
    case _ =>
  }

  /** Retention deletes a job only after a scan found that it had ended before the cutoff. */
  lemma RetentionWaits(cfg: Config, tr: seq<Sys>, steps: seq<Step>, i: nat, k: JobId) returns (m: nat)
    requires Run(cfg, tr, steps) && AlwaysTimely(cfg, tr) && i < |steps|
    requires k in tr[i].db.jobs && k !in tr[i + 1].db.jobs
    ensures m < i && steps[m].RetentionScan?
    ensures tr[i].db.jobs[k].completedAt.Some? && tr[i].db.jobs[k].completedAt.value < steps[m].cutoff
  {
    RetentionIsSafe(cfg, tr, steps, i, k);
    assert Takes(cfg, tr[i], steps[i], tr[i + 1]);
    NextDb(cfg, tr[i], steps[i]);
    m := PrunedWasListed(cfg, tr, steps, i, k);
  }

  // ----- Recovery ------------------------------------------------------------------------------

  predicate Held(j: Job) {
    j.state == Resolving || j.state == Forwarding
  }

  /** From the scan at i on, recovery has worked through its list at j. */
  predicate Recovering(steps: seq<Step>, i: nat, j: nat) {
    && i < j <= |steps| && steps[i].RecoverScan?
    && forall n | i < n < j :: steps[n].RequeuePending?
  }

  /** A job still in flight is still on the list; one that was and is not any more is back in the queue, due at once. */
  ghost predicate Back(j0: Job, j: Job, listed: bool) {
    && (Held(j) ==> listed)
    && (Held(j0) && !Held(j) ==> j.state == Received && forall t :: Eligible(j, t))
    && (!Held(j0) ==> j == j0)
  }

  ghost predicate Requeued(s0: Sys, s: Sys) {
    && s.db.jobs.Keys == s0.db.jobs.Keys
    && forall k | k in s.db.jobs :: Back(s0.db.jobs[k], s.db.jobs[k], k in s.pending)
  }

  lemma {:induction false} RequeuesGoOn(cfg: Config, tr: seq<Sys>, steps: seq<Step>, i: nat, j: nat)
    requires Run(cfg, tr, steps) && AlwaysTimely(cfg, tr) && Recovering(steps, i, j)
    ensures Requeued(tr[i], tr[j])
  {
    if j == i + 1 {
      ScanAt(cfg, tr, steps, i);
    } else {
      RequeuesGoOn(cfg, tr, steps, i, j - 1);
      RequeueAt(cfg, tr, steps, j - 1, tr[i]);
    }
  }

  lemma ScanAt(cfg: Config, tr: seq<Sys>, steps: seq<Step>, i: nat)
    requires Run(cfg, tr, steps) && i < |steps| && steps[i].RecoverScan?
    ensures Requeued(tr[i], tr[i + 1])
  {
    assert Takes(cfg, tr[i], steps[i], tr[i + 1]);
    ScanFindsAll(cfg, tr[i], steps[i], tr[i + 1]);
  }

  lemma RequeueAt(cfg: Config, tr: seq<Sys>, steps: seq<Step>, i: nat, s0: Sys)
    requires Run(cfg, tr, steps) && AlwaysTimely(cfg, tr) && i < |steps| && steps[i].RequeuePending?
    requires Requeued(s0, tr[i])
    ensures Requeued(s0, tr[i + 1])
  {
    RequeueIsSafe(cfg, tr, steps, i);
    assert Takes(cfg, tr[i], steps[i], tr[i + 1]);
    OneRequeued(cfg, s0, tr[i], steps[i], tr[i + 1]);
  }

  lemma ScanFindsAll(cfg: Config, s: Sys, step: Step, s': Sys)
    requires Takes(cfg, s, step, s') && step.RecoverScan?
    ensures Requeued(s, s')
  {
  }

  lemma OneRequeued(cfg: Config, s0: Sys, s: Sys, step: Step, s': Sys)
    requires Takes(cfg, s, step, s') && step.RequeuePending? && Requeued(s0, s)
    requires step.id in s.db.jobs && InFlight(s.db.jobs[step.id].state)
    ensures Requeued(s0, s')
  {
    RequeueWrites(cfg, s, step);
    BackInQueue(s0.db.jobs[step.id], s.db.jobs[step.id], step.at);
    forall k | k in s'.db.jobs ensures Back(s0.db.jobs[k], s'.db.jobs[k], k in s'.pending) {
      assert Back(s0.db.jobs[k], s.db.jobs[k], k in s.pending);
    }
  }

  lemma RequeueWrites(cfg: Config, s: Sys, step: Step)
    requires Enabled(cfg, s, step) && step.RequeuePending?
    requires step.id in s.db.jobs && InFlight(s.db.jobs[step.id].state)
    ensures var s' := Next(cfg, s, step);
            && s'.db.jobs == s.db.jobs[step.id := Marked(s.db.jobs[step.id], RequeueNow, step.at)]
            && s'.pending == s.pending - {step.id}
  {
  }

  lemma BackInQueue(j0: Job, j: Job, at: Time)
    requires Back(j0, j, true) && Held(j)
    ensures Back(j0, Marked(j, RequeueNow, at), false)
  {
  }

  /** Once the list of the startup recovery is worked through, no job is in flight, every job the restart interrupted
      can be claimed at once, and no other job was touched. */
  lemma RecoveryLeavesNothing(cfg: Config, tr: seq<Sys>, steps: seq<Step>, i: nat, j: nat)
    requires Run(cfg, tr, steps) && AlwaysTimely(cfg, tr) && Recovering(steps, i, j) && tr[j].pending == {}
    ensures tr[j].db.jobs.Keys == tr[i].db.jobs.Keys
    ensures forall k | k in tr[j].db.jobs ::
              && !Held(tr[j].db.jobs[k])
              && (Held(tr[i].db.jobs[k]) ==> forall t :: Eligible(tr[j].db.jobs[k], t))
              && (!Held(tr[i].db.jobs[k]) ==> tr[j].db.jobs[k] == tr[i].db.jobs[k])
  {
    RequeuesGoOn(cfg, tr, steps, i, j);
  }
}
