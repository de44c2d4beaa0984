/**
 Every job ends: bounded claims and a bounded trail across any number of crashes, and a
 bounded number of poll ticks while the process stays up.
 */
module EveryJobEnds {
  import opened Wrappers
  import opened JobTable
  import opened JobProtocol
  import opened Ownership
  import opened PollTicks

  // ----- A budget of transitions per attempt -------------------------------------

  /** The most transitions a job in this state can have behind it: three per attempt. */
  function Budget(j: Job): int {
    match j.state
    case Received => 3 * j.attempts + 1
    case Resolving => 3 * j.attempts - 1
    case Forwarding => 3 * j.attempts
    case AwaitingTarget => 3 * j.attempts + 1
    case _ => 3 * j.attempts + 2
  }

  ghost predicate Frugal(db: Db, k: JobId) {
    k in db.jobs ==> |Log(db, k)| <= Budget(db.jobs[k])
  }

  /** How the pool uses transitions: requeues leave an in-flight state only, and a parked job only ends. */
  ghost predicate Disciplined(db: Db, op: Op) {
    op.OpMark? && op.id in db.jobs ==>
      && (Target(op.mark) == Received ==> !IsTerminal(db.jobs[op.id].state) ==> InFlight(db.jobs[op.id].state))
      && (db.jobs[op.id].state == AwaitingTarget ==> IsTerminal(Target(op.mark)))
  }

  lemma ApplyKeepsFrugal(db: Db, op: Op, k: JobId)
    requires Frugal(db, k) && Disciplined(db, op)
    ensures Frugal(Apply(db, op), k)
  {
    match op
    case OpMark(id, m, now) =>
      if id == k && Judge(db, id, m) == Done { MarkedRow(db, id, m, now); MarkedAttempts(db.jobs[id], m, now); }
    case OpCreate(_, _, _, _, _) =>
    case OpClaim(_, _, _, _) =>
    case _ =>
  }

  lemma MarkedAttempts(j: Job, m: Mark, now: Time)
    ensures Marked(j, m, now).attempts == j.attempts && Marked(j, m, now).state == Target(m)
    ensures Marked(j, m, now).req == j.req
  {
  }

  lemma StepsAreDisciplined(cfg: Config, s: Sys, step: Step)
    requires AllOk(s) && Enabled(cfg, s, step) && Write(cfg, s, step).Some?
    ensures Disciplined(s.db, Write(cfg, s, step).value)
  {
    if ByWorker(step) && (W(s, step.w).Attempt? || W(s, step.w).Tick? || W(s, step.w).Panicked?) {
      assert JobOk(s, W(s, step.w).id) && WorkerOk(s, W(s, step.w).id, W(s, step.w));
    }
    if step.RequeuePending? { assert JobOk(s, step.id); }
  }

  // ----- Claims are bounded by max_attempts ----------------------------------------

  /** The hypothesis on claims: the candidate's attempt count is still the row's. */
  ghost predicate FreshClaim(s: Sys, step: Step) {
    step.TryClaim? && W(s, step.w).Choosing? && W(s, step.w).cands != [] ==>
      var c := W(s, step.w).cands[0]; c.id in s.db.jobs ==> c.attempts == s.db.jobs[c.id].attempts
  }

  predicate Spent(j: Job) {
    j.attempts > 0 && j.attempts > j.req.maxAttempts
  }

  ghost predicate Thrifty(db: Db, k: JobId) {
    k in db.jobs ==> !Spent(db.jobs[k])
  }

  lemma StepKeepsThrifty(cfg: Config, s: Sys, step: Step, k: JobId)
    requires AllOk(s) && Enabled(cfg, s, step) && FreshClaim(s, step) && Thrifty(s.db, k)
    ensures Thrifty(Next(cfg, s, step).db, k)
  {
    assert Next(cfg, s, step).db == After(cfg, s, step);
    var write := Write(cfg, s, step);
    if write.Some? {
      if step.TryClaim? { assert JobOk(s, k) && WorkerOk(s, k, W(s, step.w)); }
      WriteKeepsThrifty(s.db, write.value, k);
    }
  }

  lemma WriteKeepsThrifty(db: Db, op: Op, k: JobId)
    requires Thrifty(db, k)
    requires op.OpClaim? && op.id == k && k in db.jobs ==> db.jobs[k].attempts < db.jobs[k].req.maxAttempts
    ensures Thrifty(Apply(db, op), k)
  {
    match op
    case OpMark(id, m, now) => if id in db.jobs { MarkedAttempts(db.jobs[id], m, now); }
    case OpCreate(_, _, _, _, _) =>
    case OpClaim(_, _, _, _) =>
    case _ =>
  }

  ghost predicate AlwaysFresh(tr: seq<Sys>, steps: seq<Step>)
    requires |tr| == |steps| + 1
  {
    forall i | 0 <= i < |steps| :: FreshClaim(tr[i], steps[i])
  }

  lemma {:induction false} RunsKeepFrugal(cfg: Config, tr: seq<Sys>, steps: seq<Step>, i: nat, k: JobId)
    requires Run(cfg, tr, steps) && AlwaysTimely(cfg, tr) && i < |tr|
    ensures Frugal(tr[i].db, k)
    ensures AlwaysFresh(tr, steps) ==> Thrifty(tr[i].db, k)
  {
    if i > 0 {
      RunsKeepFrugal(cfg, tr, steps, i - 1, k);
      RunsKeepInv(cfg, tr, steps, i - 1);
      var s, step := tr[i - 1], steps[i - 1];
      assert Takes(cfg, s, step, tr[i]);
      assert tr[i].db == After(cfg, s, step);
      if Write(cfg, s, step).Some? {
        StepsAreDisciplined(cfg, s, step);
        ApplyKeepsFrugal(s.db, Write(cfg, s, step).value, k);
      }
      if AlwaysFresh(tr, steps) { assert FreshClaim(s, step); StepKeepsThrifty(cfg, s, step, k); }
    }
  }

  /** The claims a job may have. */
  function Allowed(j: Job): nat {
    if j.req.maxAttempts > 0 then j.req.maxAttempts else 0
  }

  /** Over every run, whatever crashes and recoveries it contains: a job is claimed at most max_attempts
      times and makes at most 3 * max_attempts + 2 transitions, and one that made them all has ended. */
  lemma EveryJobEndsInBudget(cfg: Config, tr: seq<Sys>, steps: seq<Step>, i: nat, k: JobId)
    requires Run(cfg, tr, steps) && AlwaysTimely(cfg, tr) && AlwaysFresh(tr, steps)
    requires i < |tr| && k in tr[i].db.jobs
    ensures var max, log := Allowed(tr[i].db.jobs[k]), Log(tr[i].db, k);
            && Claims(log) <= max && |log| <= 3 * max + 2
            && (|log| == 3 * max + 2 ==> IsTerminal(tr[i].db.jobs[k].state))
  {
    RunsKeepFrugal(cfg, tr, steps, i, k);
    RunsKeepInv(cfg, tr, steps, i);
    assert RowValid(tr[i].db, k);
  }

  /** What a fresh claim of a due received job comes to: with its attempts used up the job has failed, else it is
      being worked on with one attempt more, unless its client is at its ceiling. */
  lemma FreshClaimMovesOn(cfg: Config, tr: seq<Sys>, steps: seq<Step>, i: nat)
    requires Run(cfg, tr, steps) && AlwaysTimely(cfg, tr) && i < |steps| && steps[i].TryClaim?
    requires Enabled(cfg, tr[i], steps[i]) && FreshClaim(tr[i], steps[i])
    requires var s, c := tr[i], W(tr[i], steps[i].w).cands[0];
             c.id in s.db.jobs && s.db.jobs[c.id].state == Received && Due(s.db.jobs[c.id].nextAt, W(s, steps[i].w).now)
    ensures var s, s', c := tr[i], tr[i + 1], W(tr[i], steps[i].w).cands[0];
            && c.id in s'.db.jobs
            && var j, j' := s.db.jobs[c.id], s'.db.jobs[c.id];
               if j.attempts >= j.req.maxAttempts then j'.state == Failed
               else if ClaimWins(s.db, c.id, c.client, cfg.maxConcurrent(c.client), W(s, steps[i].w).now)
               then j'.state == Resolving && j'.attempts == j.attempts + 1 && W(s', steps[i].w) == Claimed(c.id)
               else AtLimit(cfg, s, j.req.client) && j' == j
  {
    RunsKeepInv(cfg, tr, steps, i);
    var s, x := tr[i], W(tr[i], steps[i].w);
    assert Takes(cfg, s, steps[i], tr[i + 1]);
    assert Holds(x, x.cands[0]) && JobOk(s, x.cands[0].id) && WorkerOk(s, x.cands[0].id, x);
    ClaimComesTo(cfg, s, steps[i], x.cands[0]);
  }

  /** The step itself, for a candidate that matches its row. */
  lemma ClaimComesTo(cfg: Config, s: Sys, step: Step, c: Cand)
    requires step.TryClaim? && Enabled(cfg, s, step) && c == W(s, step.w).cands[0]
    requires c.id in s.db.jobs && s.db.jobs[c.id].state == Received && Due(s.db.jobs[c.id].nextAt, W(s, step.w).now)
    requires CandMatches(c, s.db.jobs[c.id]) && c.attempts == s.db.jobs[c.id].attempts
    ensures var s', now := Next(cfg, s, step), W(s, step.w).now;
            && c.id in s'.db.jobs
            && var j, j' := s.db.jobs[c.id], s'.db.jobs[c.id];
               if j.attempts >= j.req.maxAttempts then j'.state == Failed
               else if ClaimWins(s.db, c.id, c.client, cfg.maxConcurrent(c.client), now)
               then j'.state == Resolving && j'.attempts == j.attempts + 1 && W(s', step.w) == Claimed(c.id)
               else AtLimit(cfg, s, j.req.client) && j' == j
  {
    NextDb(cfg, s, step);
  }

  predicate AtLimit(cfg: Config, s: Sys, client: string) {
    cfg.maxConcurrent(client) > 0 && |Holding(s.db, client)| >= cfg.maxConcurrent(client)
  }

  /** No unfinished job is forgotten: from some time on it is a candidate or, unless a worker has it, stuck. */
  lemma NoJobIsForgotten(cfg: Config, tr: seq<Sys>, steps: seq<Step>, i: nat, k: JobId)
    requires Run(cfg, tr, steps) && AlwaysTimely(cfg, tr) && i < |tr|
    requires k in tr[i].db.jobs && !IsTerminal(tr[i].db.jobs[k].state)
    ensures exists from: Time :: Noticed(cfg, tr[i], k, from)
  {
    RunsKeepInv(cfg, tr, steps, i);
    var j := tr[i].db.jobs[k];
    assert RowValid(tr[i].db, k);
    var from := if InFlight(j.state) then j.updatedAt + 2 * cfg.jobTimeout(j.req.target) + 1
                else if j.nextAt.Some? then j.nextAt.value else 0;
    assert Noticed(cfg, tr[i], k, from);
  }

  /** From this time on the candidate query, or the rescue scan, finds the job as it stands. */
  ghost predicate Noticed(cfg: Config, s: Sys, k: JobId, from: Time)
    requires k in s.db.jobs
  {
    forall now: Time | from <= now ::
      if InFlight(s.db.jobs[k].state) then k in Stuck(cfg, s.db, now) else Eligible(s.db.jobs[k], now)
  }

  /** Without fresh candidates the bound fails, and exactly then: the claim's compare-and-set
      does not look at attempts, so a won claim overspends iff the row was already exhausted. */
  lemma ClaimOverspendsIffExhausted(db: Db, id: JobId, client: string, max: int, now: Time)
    requires ClaimWins(db, id, client, max, now)
    ensures Spent(ClaimReceived(db, id, client, max, now).jobs[id]) <==>
              db.jobs[id].attempts >= db.jobs[id].req.maxAttempts
  {
  }

  // ----- Poll ticks are bounded by the deadline ---------------------------------------

  /** The hypothesis on ticks: the process stays up and no tick's write is lost. */
  ghost predicate Smooth(s: Sys, step: Step) {
    !step.Crash? && !step.Panic? && (step.Lose? ==> forall k :: !TicksOn(W(s, step.w), k))
  }

  /** The time n ticks of one target's cadence take at least. */
  function Span(cfg: Config, target: string, n: int): int {
    n * cfg.pollInterval(target)
  }

  lemma SpanStep(cfg: Config, target: string, n: int)
    ensures Span(cfg, target, n + 1) == Span(cfg, target, n) + cfg.pollInterval(target)
  {
  }

  /** When job j was parked: its deadline less the target's poll timeout. */
  function ParkedAt(cfg: Config, j: Job): int
    requires j.pollDeadline.Some?
  {
    j.pollDeadline.value - cfg.pollTimeout(j.req.target)
  }

  /** A worker in tick number n of job j. */
  ghost predicate TickTimed(cfg: Config, j: Job, n: nat, x: Worker)
    requires x.TickClaimed? || x.Tick? || x.TickEnd?
    requires j.pollDeadline.Some?
  {
    && ParkedAt(cfg, j) + Span(cfg, j.req.target, n) <= x.since
    && (x.Tick? ==> x.deadline == j.pollDeadline)
    && (x.Tick? || x.TickEnd? ==> x.target == j.req.target)
  }

  /** A tick of k whose outcome is still open. */
  ghost predicate Open(s: Sys, k: JobId) {
    exists w :: TicksOn(W(s, w), k) && !W(s, w).TickEnd?
  }

  ghost predicate Paced(cfg: Config, s: Sys, k: JobId) {
    Waiting(s, k) ==>
      var j, n := s.db.jobs[k], Ticks(s, k);
      && j.pollDeadline.Some? && j.nextAt.Some?
      && ParkedAt(cfg, j) + Span(cfg, j.req.target, n + 1) <= j.nextAt.value
      && (forall w | TicksOn(W(s, w), k) :: TickTimed(cfg, j, n, W(s, w)))
      && (Span(cfg, j.req.target, n) > cfg.pollTimeout(j.req.target) ==> Open(s, k))
  }

  ghost predicate Counted(cfg: Config, s: Sys, k: JobId) {
    && (k !in s.used || (k in s.db.jobs && !Parked(s.db.jobs[k])) ==> Ticks(s, k) == 0)
    && (k in s.db.jobs && Ticks(s, k) > 0 ==>
          Span(cfg, s.db.jobs[k].req.target, Ticks(s, k) - 1) <= cfg.pollTimeout(s.db.jobs[k].req.target))
  }

  ghost predicate PaceInv(cfg: Config, s: Sys) {
    && (forall k :: Paced(cfg, s, k) && Counted(cfg, s, k))
    && (s.booting ==> forall k :: !Waiting(s, k))
  }

  ghost predicate SamePollers(s: Sys, s': Sys, k: JobId) {
    forall w :: (TicksOn(W(s, w), k) || TicksOn(W(s', w), k)) ==> W(s', w) == W(s, w)
  }

  lemma PaceFrame(cfg: Config, s: Sys, s': Sys, k: JobId)
    requires Paced(cfg, s, k) && SamePollers(s, s', k) && Ticks(s', k) == Ticks(s, k)
    requires Waiting(s', k) ==> Waiting(s, k) && s'.db.jobs[k] == s.db.jobs[k]
    ensures Paced(cfg, s', k)
  {
    if Waiting(s', k) {
      forall w | TicksOn(W(s', w), k) ensures TicksOn(W(s, w), k) && W(s', w) == W(s, w) { }
      if Open(s, k) {
        var w :| TicksOn(W(s, w), k) && !W(s, w).TickEnd?;
        assert TicksOn(W(s', w), k) && !W(s', w).TickEnd?;
      }
    }
  }

  /** Steps after which nobody polls differently. */
  predicate Plain(s: Sys, step: Step) {
    Ordinary(s, step) && !step.Judgement? && !(step.ReadBack? && W(s, step.w).TickClaimed?)
  }

  lemma PlainPollers(cfg: Config, s: Sys, step: Step, k: JobId)
    requires AllOk(s) && Enabled(cfg, s, step) && Plain(s, step) && Smooth(s, step)
    ensures SamePollers(s, Next(cfg, s, step), k)
  {
    if ByWorker(step) {
      WorkerMoves(cfg, s, step);
      assert !TicksOn(W(s, step.w), k);
      assert !TicksOn(Moved(cfg, s, step).1, k);
    }
  }

  lemma PlainSteps(cfg: Config, s: Sys, step: Step, k: JobId)
    requires AllOk(s) && Paced(cfg, s, k) && Enabled(cfg, s, step) && Plain(s, step) && Smooth(s, step)
    ensures Paced(cfg, Next(cfg, s, step), k)
  {
    PlainPollers(cfg, s, step, k);
    OrdinaryWrite(cfg, s, step, k);
    OrdinaryClock(cfg, s, step, k);
    PaceFrame(cfg, s, Next(cfg, s, step), k);
  }

  /** The job a polling step concerns. */
  function Polled(s: Sys, step: Step): JobId
    requires step.TryPoll? || step.Park? || step.Reschedule? || step.Judgement? || step.ReadBack?
  {
    match WonTick(s, step)
    case Some(c) => c.id
    case None => var x := W(s, step.w); if x.Idle? || x.Choosing? then "" else x.id
  }

  predicate PollStep(s: Sys, step: Step) {
    WonTick(s, step).Some? || step.Park? || step.Reschedule? || step.Judgement? || step.ReadBack?
  }

  lemma OtherJobsPaced(cfg: Config, s: Sys, step: Step, k: JobId)
    requires Paced(cfg, s, k) && Enabled(cfg, s, step) && PollStep(s, step) && k != Polled(s, step)
    ensures Paced(cfg, Next(cfg, s, step), k)
  {
    var s', write := Next(cfg, s, step), Write(cfg, s, step);
    WorkerMoves(cfg, s, step);
    if write.Some? { ScheduleKept(s.db, write.value, k); }
    PaceFrame(cfg, s, s', k);
  }

  lemma ParkPaces(cfg: Config, s: Sys, step: Step)
    requires AllOk(s) && Enabled(cfg, s, step) && step.Park?
    requires Counted(cfg, s, W(s, step.w).id)
    ensures Paced(cfg, Next(cfg, s, step), W(s, step.w).id)
  {
    var s', k := Next(cfg, s, step), W(s, step.w).id;
    assert JobOk(s, k) && WorkerOk(s, k, W(s, step.w));
    NotParkedIsUnpolled(s, k);
    WorkerMoves(cfg, s, step);
    assert forall w :: !TicksOn(W(s', w), k);
    SpanStep(cfg, s.db.jobs[k].req.target, 0);
    assert Span(cfg, s.db.jobs[k].req.target, 0) == 0;
  }

  lemma ReadBackPaces(cfg: Config, s: Sys, step: Step)
    requires AllOk(s) && Enabled(cfg, s, step) && step.ReadBack? && Paced(cfg, s, W(s, step.w).id)
    ensures Paced(cfg, Next(cfg, s, step), W(s, step.w).id)
  {
    var s', k := Next(cfg, s, step), W(s, step.w).id;
    assert JobOk(s, k) && WorkerOk(s, k, W(s, step.w));
    WorkerMoves(cfg, s, step);
    if Waiting(s', k) {
      assert TicksOn(W(s', step.w), k) && !W(s', step.w).TickEnd?;
      assert TicksOn(W(s, step.w), k);
    }
  }

  lemma JudgementPaces(cfg: Config, s: Sys, step: Step)
    requires Enabled(cfg, s, step) && step.Judgement? && Paced(cfg, s, W(s, step.w).id)
    ensures Paced(cfg, Next(cfg, s, step), W(s, step.w).id)
  {
    var s', k := Next(cfg, s, step), W(s, step.w).id;
    WorkerMoves(cfg, s, step);
    if Waiting(s', k) {
      assert TicksOn(W(s, step.w), k);
      if step.outcome.Some? { ScheduleKept(s.db, Write(cfg, s, step).value, k); }
    }
  }

  lemma ReschedulePaces(cfg: Config, s: Sys, step: Step)
    requires Enabled(cfg, s, step) && step.Reschedule? && PollOk(s, W(s, step.w).id) && Paced(cfg, s, W(s, step.w).id)
    ensures Paced(cfg, Next(cfg, s, step), W(s, step.w).id)
  {
    var s', k := Next(cfg, s, step), W(s, step.w).id;
    WorkerMoves(cfg, s, step);
    if Waiting(s', k) {
      assert TicksOn(W(s, step.w), k);
      SpanStep(cfg, s.db.jobs[k].req.target, Ticks(s, k));
      assert !Open(s, k);
      assert forall w :: !TicksOn(W(s', w), k);
    }
  }

  lemma WonTickPaces(cfg: Config, s: Sys, step: Step)
    requires Sane(cfg) && Inv(s) && PollInv(s) && Enabled(cfg, s, step) && WonTick(s, step).Some?
    requires Paced(cfg, s, WonTick(s, step).value.id)
    ensures Paced(cfg, Next(cfg, s, step), WonTick(s, step).value.id)
    ensures Counted(cfg, Next(cfg, s, step), WonTick(s, step).value.id)
  {
    var c := WonTick(s, step).value;
    WinnersAreFresh(s, step);
    assert JobOk(s, c.id) && PollOk(s, c.id) && WorkerOk(s, c.id, W(s, step.w));
    assert 1 <= cfg.pollInterval(c.target) <= cfg.pollLease(c.target);
    WonTickPacesJob(cfg, s, step);
  }

  lemma WonTickPacesJob(cfg: Config, s: Sys, step: Step)
    requires Enabled(cfg, s, step) && WonTick(s, step).Some?
    requires var c, x := WonTick(s, step).value, W(s, step.w);
             && Paced(cfg, s, c.id) && JobOk(s, c.id) && PollOk(s, c.id) && WorkerOk(s, c.id, x)
             && c.ticks == Ticks(s, c.id) && (forall w :: !TicksOn(W(s, w), c.id))
             && 1 <= cfg.pollInterval(c.target) <= cfg.pollLease(c.target)
    ensures Paced(cfg, Next(cfg, s, step), WonTick(s, step).value.id)
    ensures Counted(cfg, Next(cfg, s, step), WonTick(s, step).value.id)
  {
    var s', c, x := Next(cfg, s, step), WonTick(s, step).value, W(s, step.w);
    var k, n := c.id, Ticks(s, c.id);
    WorkerMoves(cfg, s, step);
    assert Holds(x, c) && CandTimed(s, k, x, c);
    SpanStep(cfg, c.target, n);
    SpanStep(cfg, c.target, n + 1);
    assert !Open(s, k);
    assert TicksOn(W(s', step.w), k) && !W(s', step.w).TickEnd?;
  }

  lemma StepKeepsPaced(cfg: Config, s: Sys, step: Step, k: JobId)
    requires Sane(cfg) && Inv(s) && PollInv(s) && PaceInv(cfg, s) && Smooth(s, step) && Enabled(cfg, s, step)
    ensures Paced(cfg, Next(cfg, s, step), k)
  {
    assert Paced(cfg, s, k) && Counted(cfg, s, k) && PollOk(s, k);
    if PollStep(s, step) {
      if k != Polled(s, step) { OtherJobsPaced(cfg, s, step, k); }
      else if WonTick(s, step).Some? { WonTickPaces(cfg, s, step); }
      else if step.Park? { ParkPaces(cfg, s, step); }
      else if step.Reschedule? { ReschedulePaces(cfg, s, step); }
      else if step.Judgement? { JudgementPaces(cfg, s, step); }
      else { ReadBackPaces(cfg, s, step); }
    } else if step.Look? {
      WorkerMoves(cfg, s, step);
      PaceFrame(cfg, s, Next(cfg, s, step), k);
    } else if step.ResetPoll? {
      assert !Waiting(s, step.id) && !Waiting(s, k);
    } else {
      PlainSteps(cfg, s, step, k);
    }
  }

  lemma ParkedStays(db: Db, op: Op, k: JobId)
    requires Disciplined(db, op) && k in db.jobs && k in Apply(db, op).jobs && !op.OpCreate?
    ensures Parked(db.jobs[k]) ==> Parked(Apply(db, op).jobs[k])
    ensures Apply(db, op).jobs[k].req == db.jobs[k].req
  {
    match op
    case OpMark(id, m, now) => MarkedAttempts(db.jobs[k], m, now);
    case _ =>
  }

  lemma WriteKeepsCounted(cfg: Config, s: Sys, s': Sys, op: Op, k: JobId)
    requires JobOk(s, k) && Counted(cfg, s, k) && Disciplined(s.db, op)
    requires s'.db == Apply(s.db, op) && Ticks(s', k) == Ticks(s, k) && s.used <= s'.used
    requires op.OpCreate? ==> op.id !in s.used
    ensures Counted(cfg, s', k)
  {
    if k in s.db.jobs && k in s'.db.jobs {
      if op.OpCreate? { OtherRows(s.db, op, k); } else { ParkedStays(s.db, op, k); }
    } else if k in s'.db.jobs {
      OnlyCreateAdds(s.db, op, k);
    }
  }

  lemma StepKeepsCounted(cfg: Config, s: Sys, step: Step, k: JobId)
    requires Sane(cfg) && Inv(s) && PollInv(s) && PaceInv(cfg, s) && Enabled(cfg, s, step)
    ensures Counted(cfg, Next(cfg, s, step), k)
  {
    assert Paced(cfg, s, k) && Counted(cfg, s, k) && JobOk(s, k);
    if WonTick(s, step).Some? && WonTick(s, step).value.id == k {
      WonTickPaces(cfg, s, step);
    } else {
      if Write(cfg, s, step).Some? { StepsAreDisciplined(cfg, s, step); }
      OtherStepsCounted(cfg, s, step, k);
    }
  }

  lemma OtherStepsCounted(cfg: Config, s: Sys, step: Step, k: JobId)
    requires JobOk(s, k) && Counted(cfg, s, k) && Enabled(cfg, s, step)
    requires WonTick(s, step).Some? ==> WonTick(s, step).value.id != k
    requires Write(cfg, s, step).Some? ==> Disciplined(s.db, Write(cfg, s, step).value)
    ensures Counted(cfg, Next(cfg, s, step), k)
  {
    NextCounts(cfg, s, step);
    TicksKept(s, step, Next(cfg, s, step), k);
    NextDb(cfg, s, step);
    if Write(cfg, s, step).Some? { WriteKeepsCounted(cfg, s, Next(cfg, s, step), Write(cfg, s, step).value, k); }
  }

  /** Ticks of k are counted when a tick of k is won. */
  lemma TicksKept(s: Sys, step: Step, s': Sys, k: JobId)
    requires s'.ticks == if ByWorker(step) then CountTick(s, step) else s.ticks
    ensures Ticks(s, k) <= Ticks(s', k)
    ensures (WonTick(s, step).Some? ==> WonTick(s, step).value.id != k) ==> Ticks(s', k) == Ticks(s, k)
  {
  }

  lemma OnlyCreateAdds(db: Db, op: Op, k: JobId)
    requires k !in db.jobs && k in Apply(db, op).jobs
    ensures op.OpCreate? && op.id == k
  {
    match op
    case OpMark(_, _, _) =>
    case _ =>
  }

  lemma BootingStaysUnparked(cfg: Config, s: Sys, step: Step, k: JobId)
    requires Inv(s) && PaceInv(cfg, s) && Smooth(s, step) && Enabled(cfg, s, step) && Next(cfg, s, step).booting
    ensures !Waiting(Next(cfg, s, step), k)
  {
    assert !Waiting(s, k);
    if ByWorker(step) { assert W(s, step.w) == Idle; }
    if !step.ResetPoll? { OrdinaryWrite(cfg, s, step, k); }
  }

  lemma StepKeepsPaceInv(cfg: Config, s: Sys, step: Step)
    requires Sane(cfg) && Inv(s) && PollInv(s) && PaceInv(cfg, s) && Smooth(s, step) && Enabled(cfg, s, step)
    ensures PaceInv(cfg, Next(cfg, s, step))
  {
    forall k ensures Paced(cfg, Next(cfg, s, step), k) && Counted(cfg, Next(cfg, s, step), k) {
      StepKeepsPaced(cfg, s, step, k);
      StepKeepsCounted(cfg, s, step, k);
    }
    if Next(cfg, s, step).booting {
      forall k ensures !Waiting(Next(cfg, s, step), k) { BootingStaysUnparked(cfg, s, step, k); }
    }
  }

  ghost predicate AlwaysSmooth(tr: seq<Sys>, steps: seq<Step>)
    requires |tr| == |steps| + 1
  {
    forall i | 0 <= i < |steps| :: Smooth(tr[i], steps[i])
  }

  lemma {:induction false} RunsKeepPaceInv(cfg: Config, tr: seq<Sys>, steps: seq<Step>, i: nat)
    requires Sane(cfg) && Run(cfg, tr, steps) && AlwaysTimely(cfg, tr) && LeasesAlwaysHold(tr)
    requires AlwaysSmooth(tr, steps) && i < |tr|
    ensures PaceInv(cfg, tr[i])
  {
    if i > 0 {
      RunsKeepPaceInv(cfg, tr, steps, i - 1);
      RunsKeepPollInv(cfg, tr, steps, i - 1);
      assert Takes(cfg, tr[i - 1], steps[i - 1], tr[i]) && Smooth(tr[i - 1], steps[i - 1]);
      StepKeepsPaceInv(cfg, tr[i - 1], steps[i - 1]);
    }
  }

  lemma SpanBound(cfg: Config, target: string, n: nat)
    requires cfg.pollInterval(target) >= 1 && n > 0 && Span(cfg, target, n - 1) <= cfg.pollTimeout(target)
    ensures n <= cfg.pollTimeout(target) / cfg.pollInterval(target) + 1
  {
    QuotientBound(n - 1, cfg.pollTimeout(target), cfg.pollInterval(target));
  }

  lemma MulKeepsOrder(a: int, b: int, i: nat)
    ensures a <= b ==> a * i <= b * i
  {
    if a <= b { assert (b - a) * i >= 0; }
  }

  lemma QuotientBound(m: nat, t: nat, i: nat)
    requires i >= 1 && m * i <= t
    ensures m <= t / i
  {
    var q := t / i;
    assert t < (q + 1) * i;
    MulKeepsOrder(q + 1, m, i);
  }

  /** Without restarts a polled job is ticked at most floor(timeout / interval) + 1 times. */
  lemma TicksAreBounded(cfg: Config, tr: seq<Sys>, steps: seq<Step>, i: nat, k: JobId)
    requires Sane(cfg) && Run(cfg, tr, steps) && AlwaysTimely(cfg, tr) && LeasesAlwaysHold(tr)
    requires AlwaysSmooth(tr, steps) && i < |tr| && k in tr[i].db.jobs
    ensures var target := tr[i].db.jobs[k].req.target;
            Ticks(tr[i], k) <= cfg.pollTimeout(target) / cfg.pollInterval(target) + 1
  {
    RunsKeepPaceInv(cfg, tr, steps, i);
    var target := tr[i].db.jobs[k].req.target;
    assert Counted(cfg, tr[i], k) && 1 <= cfg.pollInterval(target);
    if Ticks(tr[i], k) > 0 { SpanBound(cfg, target, Ticks(tr[i], k)); }
    assert cfg.pollTimeout(target) / cfg.pollInterval(target) >= 0;
  }

  lemma PastTheTimeout(t: nat, i: nat)
    requires i >= 1
    ensures (t / i + 1) * i > t
  {
    assert t == t / i * i + t % i;
  }

  /** A polled job has ended once it had floor(timeout / interval) + 1 ticks and the last one is judged. */
  lemma PolledJobEnds(cfg: Config, tr: seq<Sys>, steps: seq<Step>, i: nat, k: JobId)
    requires Sane(cfg) && Run(cfg, tr, steps) && AlwaysTimely(cfg, tr) && LeasesAlwaysHold(tr)
    requires AlwaysSmooth(tr, steps) && i < |tr| && k in tr[i].db.jobs && !Open(tr[i], k)
    requires var target := tr[i].db.jobs[k].req.target;
             Ticks(tr[i], k) == cfg.pollTimeout(target) / cfg.pollInterval(target) + 1
    ensures IsTerminal(tr[i].db.jobs[k].state)
  {
    RunsKeepPaceInv(cfg, tr, steps, i);
    var target := tr[i].db.jobs[k].req.target;
    assert 1 <= cfg.pollInterval(target);
    PastTheTimeout(cfg.pollTimeout(target), cfg.pollInterval(target));
    assert Paced(cfg, tr[i], k) && Counted(cfg, tr[i], k);
  }

  // ----- The measure that every move of a job decreases ---------------------------------------------------

  /** Transitions a job has left. */
  function TransitionsLeft(db: Db, k: JobId): int
    requires k in db.jobs
  {
    3 * Allowed(db.jobs[k]) + 2 - |Log(db, k)|
  }

  /** Poll ticks a job has left. */
  function TicksLeft(cfg: Config, s: Sys, k: JobId): int
    requires k in s.db.jobs && cfg.pollInterval(s.db.jobs[k].req.target) >= 1
  {
    var target := s.db.jobs[k].req.target;
    cfg.pollTimeout(target) / cfg.pollInterval(target) + 1 - Ticks(s, k)
  }

  /** Something happened to the job: its trail grew or a tick of it was claimed. */
  predicate Moves(s: Sys, s': Sys, k: JobId) {
    Log(s'.db, k) != Log(s.db, k) || Ticks(s', k) != Ticks(s, k)
  }

  /** A trail only grows while its job exists. */
  lemma TrailGrows(db: Db, op: Op, k: JobId)
    requires k in db.jobs && k in Apply(db, op).jobs
    ensures Log(Apply(db, op), k) == Log(db, k) || |Log(Apply(db, op), k)| == |Log(db, k)| + 1
    ensures Apply(db, op).jobs[k].req == db.jobs[k].req
  {
    ApplyKeepsFinal(db, op, k);
    match op
    case OpMark(id, m, now) => if id != k { OtherRows(db, op, k); }
    case OpCreate(id, _, _, _, _) => if id != k { OtherRows(db, op, k); }
    case OpClaim(id, _, _, _) => if id != k { OtherRows(db, op, k); }
    case _ =>
  }

  /** Remaining transitions, then remaining ticks: no step raises them, every move of the job lowers them, and
      neither goes below zero. */
  lemma EveryMoveCounts(cfg: Config, tr: seq<Sys>, steps: seq<Step>, i: nat, k: JobId)
    requires Sane(cfg) && Run(cfg, tr, steps) && AlwaysTimely(cfg, tr) && LeasesAlwaysHold(tr)
    requires AlwaysSmooth(tr, steps) && AlwaysFresh(tr, steps)
    requires i < |steps| && k in tr[i].db.jobs && k in tr[i + 1].db.jobs
    ensures 1 <= cfg.pollInterval(tr[i].db.jobs[k].req.target) && tr[i + 1].db.jobs[k].req == tr[i].db.jobs[k].req
    ensures var m, m' := TransitionsLeft(tr[i].db, k), TransitionsLeft(tr[i + 1].db, k);
            var n, n' := TicksLeft(cfg, tr[i], k), TicksLeft(cfg, tr[i + 1], k);
            && 0 <= m' <= m && 0 <= n' <= n
            && (Moves(tr[i], tr[i + 1], k) ==> m' < m || (m' == m && n' < n))
  {
    var s, step := tr[i], steps[i];
    assert Takes(cfg, s, step, tr[i + 1]);
    RunsKeepInv(cfg, tr, steps, i);
    EveryJobEndsInBudget(cfg, tr, steps, i + 1, k);
    NextDb(cfg, s, step);
    if Write(cfg, s, step).Some? { TrailGrows(s.db, Write(cfg, s, step).value, k); }
    TicksAreBounded(cfg, tr, steps, i + 1, k);
    NextCounts(cfg, s, step);
    TicksKept(s, step, tr[i + 1], k);
    assert 1 <= cfg.pollInterval(s.db.jobs[k].req.target);
  }

  /** The measure is used up only when the job has ended: an unfinished one has a transition left and, while it waits
      for its target, a tick left or one whose outcome is open. */
  lemma UnfinishedHasMovesLeft(cfg: Config, tr: seq<Sys>, steps: seq<Step>, i: nat, k: JobId)
    requires Sane(cfg) && Run(cfg, tr, steps) && AlwaysTimely(cfg, tr) && LeasesAlwaysHold(tr)
    requires AlwaysSmooth(tr, steps) && AlwaysFresh(tr, steps)
    requires i < |tr| && k in tr[i].db.jobs && !IsTerminal(tr[i].db.jobs[k].state)
    ensures TransitionsLeft(tr[i].db, k) > 0 && 1 <= cfg.pollInterval(tr[i].db.jobs[k].req.target)
    ensures Waiting(tr[i], k) ==> TicksLeft(cfg, tr[i], k) > 0 || Open(tr[i], k)
  {
    EveryJobEndsInBudget(cfg, tr, steps, i, k);
    TicksAreBounded(cfg, tr, steps, i, k);
    assert 1 <= cfg.pollInterval(tr[i].db.jobs[k].req.target);
    if Waiting(tr[i], k) && !Open(tr[i], k) && TicksLeft(cfg, tr[i], k) == 0 { PolledJobEnds(cfg, tr, steps, i, k); }
  }
}
