/**
 Poll ticks: while a job awaits its target, at most one worker runs a tick of it, and
 only a candidate read since the last tick can win the next one.
 */
module PollTicks {
  import opened Wrappers
  import opened JobTable
  import opened JobProtocol
  import opened Ownership

  predicate Waiting(s: Sys, k: JobId) {
    k in s.db.jobs && s.db.jobs[k].state == AwaitingTarget
  }

  /** The hypothesis on ticks: each ends before its lease runs out. */
  ghost predicate LeasesHold(s: Sys) {
    forall w, k | TicksOn(W(s, w), k) :: s.clock < W(s, w).lease
  }

  /** A held candidate either is current, or its poll time lies before the scheduled one. */
  ghost predicate CandTimed(s: Sys, k: JobId, x: Worker, c: Cand) {
    && c.nextAt.Some? && s.db.jobs.Keys >= {k} && s.db.jobs[k].nextAt.Some?
    && x.Choosing? && c.nextAt.value <= x.now <= s.clock
    && c.ticks <= Ticks(s, k)
    && (c.ticks == Ticks(s, k) ==>
          s.db.jobs[k].nextAt == c.nextAt && forall w :: !TicksOn(W(s, w), k))
    && (c.ticks < Ticks(s, k) ==>
          && c.nextAt.value < s.db.jobs[k].nextAt.value
          && forall w | TicksOn(W(s, w), k) :: c.nextAt.value <= W(s, w).since)
  }

  ghost predicate PollOk(s: Sys, k: JobId) {
    && (forall v, w | TicksOn(W(s, v), k) && TicksOn(W(s, w), k) :: v == w)
    && (forall w | TicksOn(W(s, w), k) :: W(s, w).since <= s.clock)
    && (Waiting(s, k) ==>
          && (forall w | TicksOn(W(s, w), k) :: s.db.jobs[k].nextAt == Some(W(s, w).lease))
          && (forall w, c | Holds(W(s, w), c) && c.poll && c.id == k :: CandTimed(s, k, W(s, w), c)))
  }

  ghost predicate PollInv(s: Sys) {
    forall k :: PollOk(s, k)
  }

  /** x' says no more about ticks and poll candidates of k than x. */
  ghost predicate NoNewTick(x: Worker, x': Worker, k: JobId) {
    x' == x ||
    (&& (TicksOn(x', k) ==> TicksOn(x, k) && x'.lease == x.lease && x'.since == x.since)
     && (forall c | Holds(x', c) && c.id == k && c.poll :: Holds(x, c) && x'.now == x.now))
  }

  /** Job k's schedule and its pollers are as before, or it no longer waits. */
  ghost predicate Steady(s: Sys, s': Sys, k: JobId) {
    && (Waiting(s', k) ==> Waiting(s, k) && s'.db.jobs[k].nextAt == s.db.jobs[k].nextAt)
    && Ticks(s', k) == Ticks(s, k) && s.clock <= s'.clock
    && (forall w :: NoNewTick(W(s, w), W(s', w), k))
  }

  lemma SteadyKeepsPollOk(s: Sys, s': Sys, k: JobId)
    requires PollOk(s, k) && Steady(s, s', k)
    ensures PollOk(s', k)
  {
    forall w | TicksOn(W(s', w), k)
      ensures TicksOn(W(s, w), k) && W(s', w).since == W(s, w).since && W(s', w).lease == W(s, w).lease
    {
      assert NoNewTick(W(s, w), W(s', w), k);
    }
    if Waiting(s', k) {
      forall w, c | Holds(W(s', w), c) && c.poll && c.id == k ensures CandTimed(s', k, W(s', w), c) {
        assert NoNewTick(W(s, w), W(s', w), k);
        assert CandTimed(s, k, W(s, w), c);
      }
    }
  }

  /** A job nobody polls or is about to poll. */
  ghost predicate Unpolled(s: Sys, k: JobId) {
    forall w :: !TicksOn(W(s, w), k) && (forall c | Holds(W(s, w), c) && c.id == k :: !c.poll)
  }

  lemma NotParkedIsUnpolled(s: Sys, k: JobId)
    requires JobOk(s, k) && (k in s.db.jobs ==> !Parked(s.db.jobs[k])) && (k !in s.db.jobs ==> k !in s.used)
    ensures Unpolled(s, k)
  {
    forall w ensures !TicksOn(W(s, w), k) && (forall c | Holds(W(s, w), c) && c.id == k :: !c.poll) {
      assert WorkerOk(s, k, W(s, w));
    }
  }

  // ----- The steps that concern polling ----------------------------------------

  /** A won claim was read since the last tick: stale candidates lose. */
  lemma WinnersAreFresh(s: Sys, step: Step)
    requires PollInv(s) && Inv(s) && WonTick(s, step).Some? && WonTick(s, step).value.poll
    ensures var c := WonTick(s, step).value; c.ticks == Ticks(s, c.id) && forall w :: !TicksOn(W(s, w), c.id)
  {
    var c := WonTick(s, step).value;
    assert PollOk(s, c.id) && Holds(W(s, step.w), c);
    assert CandTimed(s, c.id, W(s, step.w), c);
  }

  lemma WorkerMoves(cfg: Config, s: Sys, step: Step)
    requires Enabled(cfg, s, step) && ByWorker(step)
    ensures OneMoves(s, Next(cfg, s, step), step.w, Moved(cfg, s, step).1)
  {
  }

  lemma WonPollOk(s: Sys, s': Sys, w: WorkerId, c: Cand, lease: Time)
    requires PollOk(s, c.id) && Waiting(s, c.id) && Holds(W(s, w), c) && c.poll && CandTimed(s, c.id, W(s, w), c)
    requires c.ticks == Ticks(s, c.id) && s.clock == s'.clock && W(s, w).now < lease
    requires OneMoves(s, s', w, TickClaimed(c.id, lease, s.clock))
    requires Ticks(s', c.id) == Ticks(s, c.id) + 1
    requires Waiting(s', c.id) && s'.db.jobs[c.id].nextAt == Some(lease)
    ensures PollOk(s', c.id)
  {
    forall v, d | Holds(W(s', v), d) && d.poll && d.id == c.id ensures CandTimed(s', c.id, W(s', v), d) {
      assert v != w && Holds(W(s, v), d) && CandTimed(s, c.id, W(s, v), d);
    }
  }

  lemma WonPoll(cfg: Config, s: Sys, step: Step)
    requires Sane(cfg) && Inv(s) && PollInv(s) && Enabled(cfg, s, step) && WonTick(s, step).Some?
    ensures PollOk(Next(cfg, s, step), WonTick(s, step).value.id)
  {
    var c := WonTick(s, step).value;
    WinnersAreFresh(s, step);
    assert PollOk(s, c.id);
    assert 1 <= cfg.pollInterval(c.target) <= cfg.pollLease(c.target);
    WonPollStep(cfg, s, step, c);
  }

  lemma WonPollStep(cfg: Config, s: Sys, step: Step, c: Cand)
    requires Enabled(cfg, s, step) && WonTick(s, step) == Some(c) && PollOk(s, c.id) && c.ticks == Ticks(s, c.id)
    requires 1 <= cfg.pollLease(c.target)
    ensures PollOk(Next(cfg, s, step), c.id)
  {
    var x := W(s, step.w);
    WorkerMoves(cfg, s, step);
    WonRow(cfg, s, step);
    assert Holds(x, c) && CandTimed(s, c.id, x, c);
    WonPollOk(s, Next(cfg, s, step), step.w, c, x.now + cfg.pollLease(c.target));
  }

  lemma WonRow(cfg: Config, s: Sys, step: Step)
    requires Enabled(cfg, s, step) && WonTick(s, step).Some?
    ensures var c, x, s' := WonTick(s, step).value, W(s, step.w), Next(cfg, s, step);
            && Waiting(s, c.id) && Waiting(s', c.id) && Ticks(s', c.id) == Ticks(s, c.id) + 1 && s'.clock == s.clock
            && s'.db.jobs[c.id].nextAt == Some(x.now + cfg.pollLease(c.target))
            && Moved(cfg, s, step).1 == TickClaimed(c.id, x.now + cfg.pollLease(c.target), s.clock)
  {
  }

  lemma EndedTick(cfg: Config, s: Sys, step: Step)
    requires Sane(cfg) && PollInv(s) && Enabled(cfg, s, step) && (step.Reschedule? || step.Panic?)
    ensures PollOk(Next(cfg, s, step), W(s, step.w).id)
  {
    var s', x := Next(cfg, s, step), W(s, step.w);
    var k := x.id;
    assert PollOk(s, k) && TicksOn(x, k);
    WorkerMoves(cfg, s, step);
    assert 1 <= cfg.pollInterval(x.target);
    forall w, d | Holds(W(s', w), d) && d.poll && d.id == k && Waiting(s', k) ensures CandTimed(s', k, W(s', w), d) {
      assert Holds(W(s, w), d) && CandTimed(s, k, W(s, w), d);
    }
  }

  lemma NewCandidates(cfg: Config, s: Sys, step: Step, k: JobId)
    requires PollInv(s) && LeasesHold(s) && Enabled(cfg, s, step) && step.Look?
    ensures PollOk(Next(cfg, s, step), k)
  {
    var s' := Next(cfg, s, step);
    assert PollOk(s, k);
    WorkerMoves(cfg, s, step);
    if Waiting(s', k) {
      forall w, c | Holds(W(s', w), c) && c.poll && c.id == k ensures CandTimed(s', k, W(s', w), c) {
        if w == step.w {
          assert ReadsRow(s, c, step.at);
        } else {
          assert CandTimed(s, k, W(s, w), c);
        }
      }
    }
  }

  lemma UnpolledIsOk(s: Sys, s': Sys, k: JobId)
    requires Unpolled(s, k) && PollOk(s, k) && (forall w :: NoNewTick(W(s, w), W(s', w), k))
    ensures PollOk(s', k)
  {
    forall w ensures !TicksOn(W(s', w), k) && (forall c | Holds(W(s', w), c) && c.id == k :: !c.poll) {
      assert NoNewTick(W(s, w), W(s', w), k);
    }
  }

  // ----- Every step --------------------------------------------------------------

  /** The write of a step leaves the schedule of k alone, or k stops waiting. */
  lemma ScheduleKept(db: Db, op: Op, k: JobId)
    requires op.OpDelete? || op.id != k || op.OpAttempt? || op.OpCreate? || op.OpClaim? ||
             (op.OpMark? && !op.mark.MarkAwaitingTarget?)
    ensures var db' := Apply(db, op);
            k in db'.jobs && db'.jobs[k].state == AwaitingTarget ==>
              k in db.jobs && db'.jobs[k] == db.jobs[k]
  {
    match op
    case OpMark(_, m, _) => match m { case MarkAwaitingTarget(_, _, _) => case _ => }
    case OpCreate(_, _, _, _, _) =>
    case OpClaim(_, _, _, _) =>
    case _ =>
  }

  /** Steps that neither park, look, win a tick, end one nor reset a schedule. */
  predicate Ordinary(s: Sys, step: Step) {
    !step.Park? && !step.Look? && WonTick(s, step).None? && !step.Reschedule? && !step.Panic? && !step.ResetPoll?
  }

  lemma OrdinaryWrite(cfg: Config, s: Sys, step: Step, k: JobId)
    requires Enabled(cfg, s, step) && Ordinary(s, step)
    ensures var s' := Next(cfg, s, step);
            Waiting(s', k) ==> Waiting(s, k) && s'.db.jobs[k] == s.db.jobs[k]
  {
    assert Next(cfg, s, step).db == After(cfg, s, step);
    var write := Write(cfg, s, step);
    if write.Some? && !write.value.OpPoll? { ScheduleKept(s.db, write.value, k); }
  }

  lemma OrdinaryMoves(cfg: Config, s: Sys, step: Step, k: JobId, w: WorkerId)
    requires AllOk(s) && Enabled(cfg, s, step) && Ordinary(s, step)
    ensures NoNewTick(W(s, w), W(Next(cfg, s, step), w), k)
  {
    if ByWorker(step) {
      WorkerMoves(cfg, s, step);
    }
  }

  lemma OrdinarySteps(cfg: Config, s: Sys, step: Step)
    requires AllOk(s) && PollInv(s) && Enabled(cfg, s, step) && Ordinary(s, step)
    ensures PollInv(Next(cfg, s, step))
  {
    forall k ensures PollOk(Next(cfg, s, step), k) { OrdinaryStep(cfg, s, step, k); }
  }

  lemma OrdinaryStep(cfg: Config, s: Sys, step: Step, k: JobId)
    requires AllOk(s) && PollOk(s, k) && Enabled(cfg, s, step) && Ordinary(s, step)
    ensures PollOk(Next(cfg, s, step), k)
  {
    OrdinaryIsSteady(cfg, s, step, k);
    SteadyKeepsPollOk(s, Next(cfg, s, step), k);
  }

  lemma OrdinaryIsSteady(cfg: Config, s: Sys, step: Step, k: JobId)
    requires AllOk(s) && Enabled(cfg, s, step) && Ordinary(s, step)
    ensures Steady(s, Next(cfg, s, step), k)
  {
    var s' := Next(cfg, s, step);
    OrdinaryWrite(cfg, s, step, k);
    OrdinaryClock(cfg, s, step, k);
    forall w ensures NoNewTick(W(s, w), W(s', w), k) { OrdinaryMoves(cfg, s, step, k, w); }
  }

  lemma OrdinaryClock(cfg: Config, s: Sys, step: Step, k: JobId)
    requires Enabled(cfg, s, step) && Ordinary(s, step)
    ensures var s' := Next(cfg, s, step); Ticks(s', k) == Ticks(s, k) && s.clock <= s'.clock
  {
  }

  /** The other jobs are steady when a step writes one row and moves one worker. */
  lemma OthersSteady(cfg: Config, s: Sys, step: Step, id: JobId, k: JobId)
    requires PollOk(s, k) && Enabled(cfg, s, step) && k != id
    requires step.Park? || step.Reschedule? || step.Panic? || WonTick(s, step).Some?
    requires id == if WonTick(s, step).Some? then WonTick(s, step).value.id else W(s, step.w).id
    ensures PollOk(Next(cfg, s, step), k)
  {
    var s', write := Next(cfg, s, step), Write(cfg, s, step);
    WorkerMoves(cfg, s, step);
    if write.Some? { ScheduleKept(s.db, write.value, k); }
    SteadyKeepsPollOk(s, s', k);
  }

  lemma ParkStepPolls(cfg: Config, s: Sys, step: Step)
    requires AllOk(s) && PollInv(s) && Enabled(cfg, s, step) && step.Park?
    ensures PollInv(Next(cfg, s, step))
  {
    var s', id := Next(cfg, s, step), W(s, step.w).id;
    forall k ensures PollOk(s', k) {
      if k == id {
        assert JobOk(s, id) && WorkerOk(s, id, W(s, step.w));
        NotParkedIsUnpolled(s, id);
        WorkerMoves(cfg, s, step);
        UnpolledIsOk(s, s', id);
      } else {
        OthersSteady(cfg, s, step, id, k);
      }
    }
  }

  lemma TickStepPolls(cfg: Config, s: Sys, step: Step)
    requires Sane(cfg) && Inv(s) && PollInv(s) && Enabled(cfg, s, step)
    requires step.Reschedule? || step.Panic? || WonTick(s, step).Some?
    ensures PollInv(Next(cfg, s, step))
  {
    var id := if WonTick(s, step).Some? then WonTick(s, step).value.id else W(s, step.w).id;
    forall k ensures PollOk(Next(cfg, s, step), k) {
      if k != id { OthersSteady(cfg, s, step, id, k); }
      else if WonTick(s, step).Some? { WonPoll(cfg, s, step); }
      else { EndedTick(cfg, s, step); }
    }
  }

  lemma ResetPolls(cfg: Config, s: Sys, step: Step)
    requires NoWorkers(s) && PollInv(s) && Enabled(cfg, s, step) && step.ResetPoll?
    ensures PollInv(Next(cfg, s, step))
  {
    var s' := Next(cfg, s, step);
    forall k ensures PollOk(s', k) {
      assert PollOk(s, k);
      assert forall w :: W(s', w) == W(s, w) == Idle;
      UnpolledIsOk(s, s', k);
    }
  }

  lemma StepKeepsPollInv(cfg: Config, s: Sys, step: Step)
    requires Sane(cfg) && Inv(s) && PollInv(s) && LeasesHold(s) && Enabled(cfg, s, step)
    ensures PollInv(Next(cfg, s, step))
  {
    if Ordinary(s, step) { OrdinarySteps(cfg, s, step); }
    else if step.Park? { ParkStepPolls(cfg, s, step); }
    else if step.Look? { forall k ensures PollOk(Next(cfg, s, step), k) { NewCandidates(cfg, s, step, k); } }
    else if step.ResetPoll? { ResetPolls(cfg, s, step); }
    else { TickStepPolls(cfg, s, step); }
  }

  // ----- Whole runs -----------------------------------------------------------------

  ghost predicate LeasesAlwaysHold(tr: seq<Sys>) {
    forall i | 0 <= i < |tr| :: LeasesHold(tr[i])
  }

  lemma {:induction false} RunsKeepPollInv(cfg: Config, tr: seq<Sys>, steps: seq<Step>, i: nat)
    requires Sane(cfg) && Run(cfg, tr, steps) && AlwaysTimely(cfg, tr) && LeasesAlwaysHold(tr) && i < |tr|
    ensures Inv(tr[i]) && PollInv(tr[i])
  {
    RunsKeepInv(cfg, tr, steps, i);
    if i == 0 {
      forall k ensures PollOk(tr[0], k) { }
    } else {
      RunsKeepPollInv(cfg, tr, steps, i - 1);
      assert Takes(cfg, tr[i - 1], steps[i - 1], tr[i]);
      StepKeepsPollInv(cfg, tr[i - 1], steps[i - 1]);
    }
  }

  /** Two workers never run ticks of one job at once, restarts included. */
  lemma TicksAreExclusive(cfg: Config, tr: seq<Sys>, steps: seq<Step>, i: nat, v: WorkerId, w: WorkerId, k: JobId)
    requires Sane(cfg) && Run(cfg, tr, steps) && AlwaysTimely(cfg, tr) && LeasesAlwaysHold(tr) && i < |tr|
    requires TicksOn(W(tr[i], v), k) && TicksOn(W(tr[i], w), k)
    ensures v == w
  {
    RunsKeepPollInv(cfg, tr, steps, i);
    assert PollOk(tr[i], k);
  }

  /** A tick is won only by a candidate read since the previous tick of that job, while
      nobody else runs one; winning moves the job's poll time strictly forward. */
  lemma StaleCandidatesLose(cfg: Config, tr: seq<Sys>, steps: seq<Step>, i: nat)
    requires Sane(cfg) && Run(cfg, tr, steps) && AlwaysTimely(cfg, tr) && LeasesAlwaysHold(tr)
    requires i < |steps| && WonTick(tr[i], steps[i]).Some?
    ensures var c := WonTick(tr[i], steps[i]).value;
            && c.ticks == Ticks(tr[i], c.id)
            && (forall w :: !TicksOn(W(tr[i], w), c.id))
            && tr[i].db.jobs[c.id].nextAt == c.nextAt
            && c.id in tr[i + 1].db.jobs && tr[i + 1].db.jobs[c.id].nextAt.Some?
            && c.nextAt.value < tr[i + 1].db.jobs[c.id].nextAt.value
  {
    RunsKeepPollInv(cfg, tr, steps, i);
    assert Takes(cfg, tr[i], steps[i], tr[i + 1]);
    var c, x := WonTick(tr[i], steps[i]).value, W(tr[i], steps[i].w);
    WinnersAreFresh(tr[i], steps[i]);
    assert PollOk(tr[i], c.id) && Holds(x, c) && CandTimed(tr[i], c.id, x, c);
    assert 1 <= cfg.pollInterval(c.target) <= cfg.pollLease(c.target);
  }

  /** The end of a tick does not always move the poll time forward: it replaces the lease by
      the real cadence, so the time advances exactly when the tick ran to within one
      interval of its lease. */
  lemma RescheduleAdvancesIffLate(cfg: Config, s: Sys, step: Step)
    requires PollInv(s) && Enabled(cfg, s, step) && step.Reschedule? && Waiting(s, W(s, step.w).id)
    ensures var x, s' := W(s, step.w), Next(cfg, s, step);
            && s.db.jobs[x.id].nextAt == Some(x.lease)
            && s'.db.jobs[x.id].nextAt == Some(step.at + cfg.pollInterval(x.target))
            && (s'.db.jobs[x.id].nextAt.value > s.db.jobs[x.id].nextAt.value <==>
                step.at + cfg.pollInterval(x.target) > x.lease)
  {
    assert PollOk(s, W(s, step.w).id) && TicksOn(W(s, step.w), W(s, step.w).id);
  }

  /** A tick leased from 0 to 60 that ends at 1 with interval 5 moves the poll time from 60 back to 6. */
  lemma RescheduleMovesBack() returns (leased: Db)
    ensures Valid(leased) && "a" in leased.jobs && leased.jobs["a"].nextAt == Some(60)
    ensures ReschedulePoll(leased, "a", 1 + 5, 1).jobs["a"].nextAt == Some(6)
  {
    var r := Request("c", "", "t", "", "", 1, 0, None);
    var job := Job(r, 0, 1, AwaitingTarget, 1, Some(60), 0, Some(""), "j", Some(100), "", None);
    var log := ParkedTrail();
    leased := Db(map["a" := job], map["a" := log], map[], map["c" := 0]);
    assert RowOk(job, log, None);
    assert forall id | id in leased.jobs :: id == "a" && RowValid(leased, id);
  }

  /** The trail of a job claimed once, forwarded and parked. */
  lemma ParkedTrail() returns (log: seq<Event>)
    ensures log == [Event(None, Received, 0), Event(Some(Received), Resolving, 0),
                    Event(Some(Resolving), Forwarding, 0), Event(Some(Forwarding), AwaitingTarget, 0)]
    ensures Claims(log) == 1
  {
    var e1, e2 := Event(None, Received, 0), Event(Some(Received), Resolving, 0);
    var e3, e4 := Event(Some(Resolving), Forwarding, 0), Event(Some(Forwarding), AwaitingTarget, 0);
    ClaimsAppend([], e1);
    ClaimsAppend([e1], e2);
    ClaimsAppend([e1, e2], e3);
    ClaimsAppend([e1, e2, e3], e4);
    assert [e1, e2] == [e1] + [e2] && [e1, e2, e3] == [e1, e2] + [e3] && [e1, e2, e3, e4] == [e1, e2, e3] + [e4];
    assert [e1] == [] + [e1];
    log := [e1, e2, e3, e4];
  }
}
