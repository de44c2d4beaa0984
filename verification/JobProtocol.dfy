/**
 The worker pool as a step system over the job store.

 Every store write is one atomic step; every read that a later write relies on (the
 candidate list, the rescue and retention scans, the row read back after a claim) is a
 step of its own, so what an actor acts on may be stale. A crash drops every actor and
 keeps the store; the pool then recovers before any worker starts.
 */
module JobProtocol {
  import opened Wrappers
  import opened JobTable

  type WorkerId = nat

  /** The configuration a pool runs under; per target, except the client ceilings. */
  datatype Config = Config(
    jobTimeout: string -> nat, pollLease: string -> nat, pollInterval: string -> nat,
    pollTimeout: string -> nat, maxConcurrent: string -> int)

  /** A tick is leased for its calls plus one interval of slack, and an interval is at least 1 ms. */
  ghost predicate Sane(cfg: Config) {
    forall t :: 1 <= cfg.pollInterval(t) <= cfg.pollLease(t)
  }

  /** A row as the candidate query returned it; `ticks` records how many poll ticks had
      been claimed for the job when it was read. */
  datatype Cand = Cand(
    id: JobId, poll: bool, target: string, client: string, nextAt: Option<Time>,
    attempts: nat, maxAttempts: int, ticks: nat)

  datatype Worker =
    | Idle
    /** In ClaimNext, holding candidates read earlier. */
    | Choosing(now: Time, cands: seq<Cand>)
    /** The claim of a received job is committed; the row is about to be read back. */
    | Claimed(id: JobId)
    /** Working on an attempt, with the attempt counts read back. */
    | Attempt(id: JobId, forwarded: bool, attempts: nat, maxAttempts: int)
    /** A poll tick is claimed until `lease`; the claim committed at `since`. */
    | TickClaimed(id: JobId, lease: Time, since: Time)
    | Tick(id: JobId, lease: Time, since: Time, target: string, deadline: Option<Time>)
    | TickEnd(id: JobId, lease: Time, since: Time, target: string)
    /** A tick panicked: its deferred reschedule ran, its failure is still to be written. */
    | Panicked(id: JobId)

  datatype Sys = Sys(
    db: Db, clock: Time, booting: bool, workers: map<WorkerId, Worker>,
    pending: set<JobId>, pruning: set<JobId>,
    used: set<JobId>, ticks: map<JobId, nat>)

  function W(s: Sys, w: WorkerId): Worker {
    if w in s.workers then s.workers[w] else Idle
  }

  function Ticks(s: Sys, id: JobId): nat {
    if id in s.ticks then s.ticks[id] else 0
  }

  // ----- Steps -------------------------------------------------------------

  datatype Step =
    | Advance(elapsed: nat)
    | Submit(id: JobId, req: Request, rowid: int, cap: int, at: Time)
    | Cancel(id: JobId, at: Time)
    | Callback(id: JobId, recorded: nat, deliveredAt: Option<Time>, next: Option<Time>)
    | Look(w: WorkerId, at: Time, cands: seq<Cand>)
    | Skip(w: WorkerId)
    | TryClaim(w: WorkerId)
    | TryPoll(w: WorkerId)
    | ReadBack(w: WorkerId)
    | Resolve(w: WorkerId, payload: string, at: Time)
    | Park(w: WorkerId, targetJobId: string, at: Time, written: Time)
    | Finish(w: WorkerId, mark: Mark, at: Time)
    | Judgement(w: WorkerId, at: Time, outcome: Option<Mark>)
    | Reschedule(w: WorkerId, at: Time)
    | Panic(w: WorkerId, at: Time)
    | FailPanicked(w: WorkerId, at: Time)
    | Lose(w: WorkerId)
    | RescueScan(at: Time)
    | RequeuePending(id: JobId, at: Time)
    | DropPending
    | RetentionScan(cutoff: Time, ids: set<JobId>)
    | Prune(ids: set<JobId>)
    | Crash
    | RecoverScan
    | ResetPoll(id: JobId, at: Time)
    | BootDone

  predicate ByWorker(step: Step) {
    step.Look? || step.Skip? || step.TryClaim? || step.TryPoll? || step.ReadBack? || step.Resolve? || step.Park? ||
    step.Finish? || step.Judgement? || step.Reschedule? || step.Panic? || step.FailPanicked? || step.Lose?
  }

  predicate ReadsRow(s: Sys, c: Cand, now: Time) {
    && c.id in s.db.jobs
    && var j := s.db.jobs[c.id];
    && Eligible(j, now)
    && c == Cand(c.id, j.state == AwaitingTarget, j.req.target, j.req.client, j.nextAt,
                 j.attempts, j.req.maxAttempts, Ticks(s, c.id))
  }

  /** Jobs the rescue scan takes for abandoned at `now`. */
  function Stuck(cfg: Config, db: Db, now: Time): set<JobId> {
    set id | id in db.jobs && InFlight(db.jobs[id].state)
             && db.jobs[id].updatedAt < now - 2 * cfg.jobTimeout(db.jobs[id].req.target)
  }

  function Interrupted(db: Db): set<JobId> {
    set id | id in db.jobs && InFlight(db.jobs[id].state)
  }

  predicate Expired(db: Db, id: JobId, cutoff: Time) {
    id in db.jobs && IsTerminal(db.jobs[id].state) && db.jobs[id].completedAt.Some?
    && db.jobs[id].completedAt.value < cutoff
  }

  predicate Enabled(cfg: Config, s: Sys, step: Step) {
    match step
    case Advance(_) => true
    case Submit(id, _, _, _, at) => id !in s.used && at <= s.clock
    case Cancel(_, at) => at <= s.clock
    case Callback(_, _, _, _) => true
    case Look(w, at, cands) =>
      && !s.booting && (W(s, w).Idle? || W(s, w).Choosing?) && at <= s.clock
      && forall c | c in cands :: ReadsRow(s, c, at)
    case Skip(w) => W(s, w).Choosing?
    case TryClaim(w) => W(s, w).Choosing? && W(s, w).cands != [] && !W(s, w).cands[0].poll
    case TryPoll(w) => W(s, w).Choosing? && W(s, w).cands != [] && W(s, w).cands[0].poll
    case ReadBack(w) => W(s, w).Claimed? || W(s, w).TickClaimed?
    case Resolve(w, _, at) => W(s, w).Attempt? && !W(s, w).forwarded && at <= s.clock
    case Park(w, _, at, written) => W(s, w).Attempt? && W(s, w).forwarded && at <= written <= s.clock
    case Finish(w, m, at) =>
      && W(s, w).Attempt? && at <= s.clock
      && (m.MarkFailed? || (m.MarkCompleted? && W(s, w).forwarded)
          || (m.Requeue? && W(s, w).attempts < W(s, w).maxAttempts))
    case Judgement(w, at, outcome) =>
      && W(s, w).Tick? && W(s, w).since <= at <= s.clock
      && (match outcome
          case Some(m) => m.MarkFailed? || m.MarkCompleted?
          // Only a tick that is not past the deadline leaves the job waiting.
          case None => W(s, w).deadline.Some? ==> at <= W(s, w).deadline.value)
    case Reschedule(w, at) => W(s, w).TickEnd? && W(s, w).since <= at <= s.clock
    case Panic(w, at) => W(s, w).Tick? && W(s, w).since <= at <= s.clock
    case FailPanicked(w, at) => W(s, w).Panicked? && at <= s.clock
    case Lose(w) => true
    case RescueScan(at) => !s.booting && s.pending == {} && s.pruning == {} && at <= s.clock
    case RequeuePending(id, at) => id in s.pending && at <= s.clock
    case DropPending => true
    case RetentionScan(cutoff, ids) =>
      !s.booting && s.pending == {} && s.pruning == {} && forall id | id in ids :: Expired(s.db, id, cutoff)
    case Prune(ids) => ids <= s.pruning
    case Crash => true
    case RecoverScan => s.booting
    case ResetPoll(_, _) => s.booting
    case BootDone => s.booting
  }

  /** The write a step performs, if any. */
  function Write(cfg: Config, s: Sys, step: Step): Option<Op>
    requires Enabled(cfg, s, step)
  {
    match step
    case Submit(id, req, rowid, cap, at) => Some(OpCreate(id, req, rowid, cap, at))
    case Cancel(id, at) => Some(OpMark(id, MarkCancelled, at))
    case Callback(id, prev, d, next) => Some(OpAttempt(id, prev, d, next))
    case TryClaim(w) =>
      var c, now := W(s, w).cands[0], W(s, w).now;
      if c.attempts >= c.maxAttempts then Some(OpMark(c.id, FailExhausted, now))
      else Some(OpClaim(c.id, c.client, cfg.maxConcurrent(c.client), now))
    case TryPoll(w) =>
      var c, now := W(s, w).cands[0], W(s, w).now;
      if c.nextAt.None? then None
      else Some(OpPoll(c.id, c.nextAt.value, now + cfg.pollLease(c.target), now))
    case Resolve(w, p, at) => Some(OpMark(W(s, w).id, SetResolved(p), at))
    case Park(w, t, at, written) =>
      if W(s, w).id !in s.db.jobs then None
      else
        var target := s.db.jobs[W(s, w).id].req.target;
        Some(OpMark(W(s, w).id,
                    MarkAwaitingTarget(t, at + cfg.pollInterval(target), at + cfg.pollTimeout(target)), written))
    case Finish(w, m, at) => Some(OpMark(W(s, w).id, m, at))
    case Judgement(w, at, outcome) => if outcome.Some? then Some(OpMark(W(s, w).id, outcome.value, at)) else None
    case Reschedule(w, at) => Some(OpReschedule(W(s, w).id, at + cfg.pollInterval(W(s, w).target), at))
    case Panic(w, at) => Some(OpReschedule(W(s, w).id, at + cfg.pollInterval(W(s, w).target), at))
    case FailPanicked(w, at) => Some(OpMark(W(s, w).id, MarkFailed("internal"), at))
    case RequeuePending(id, at) => Some(OpMark(id, RequeueNow, at))
    case Prune(ids) => Some(OpDelete(ids))
    case ResetPoll(id, at) => Some(OpReschedule(id, at, at))
    case _ => None
  }

  function After(cfg: Config, s: Sys, step: Step): Db
    requires Enabled(cfg, s, step)
  {
    match Write(cfg, s, step)
    case None => s.db
    case Some(op) => Apply(s.db, op)
  }

  /** What processing starts with once the claimed row is read back. */
  function Dispatch(db: Db, x: Worker): Worker
    requires x.Claimed? || x.TickClaimed?
  {
    if x.id !in db.jobs then Idle
    else
      var j := db.jobs[x.id];
      if j.state == Resolving then Attempt(x.id, false, j.attempts, j.req.maxAttempts)
      else if j.state == AwaitingTarget && x.TickClaimed?
        then Tick(x.id, x.lease, x.since, j.req.target, j.pollDeadline)
      else Idle
  }

  /** The acting worker after its step. */
  function Moved(cfg: Config, s: Sys, step: Step): (WorkerId, Worker)
    requires Enabled(cfg, s, step) && ByWorker(step)
  {
    var x := W(s, step.w);
    (step.w,
     match step
     case Look(_, at, cands) => Choosing(at, cands)
     case Skip(_) => if x.cands == [] then Idle else Choosing(x.now, x.cands[1..])
     case TryClaim(_) =>
       var c := x.cands[0];
       if c.attempts < c.maxAttempts && ClaimWins(s.db, c.id, c.client, cfg.maxConcurrent(c.client), x.now)
       then Claimed(c.id) else Choosing(x.now, x.cands[1..])
     case TryPoll(_) =>
       var c := x.cands[0];
       if c.nextAt.Some? && PollWins(s.db, c.id, c.nextAt.value)
       then TickClaimed(c.id, x.now + cfg.pollLease(c.target), s.clock) else Choosing(x.now, x.cands[1..])
     case ReadBack(_) => Dispatch(s.db, x)
     case Resolve(_, p, _) => if Judge(s.db, x.id, SetResolved(p)) == Done then x.(forwarded := true) else Idle
     case Judgement(_, _, _) => TickEnd(x.id, x.lease, x.since, x.target)
     case Panic(_, _) => Panicked(x.id)
     case _ => Idle)
  }

  /** The candidate a poll claim wins with, if the step is one. */
  function WonTick(s: Sys, step: Step): Option<Cand> {
    if !step.TryPoll? || !W(s, step.w).Choosing? || W(s, step.w).cands == [] then None
    else
      var c := W(s, step.w).cands[0];
      if c.nextAt.Some? && PollWins(s.db, c.id, c.nextAt.value) then Some(c) else None
  }

  function CountTick(s: Sys, step: Step): map<JobId, nat> {
    match WonTick(s, step)
    case Some(c) => s.ticks[c.id := Ticks(s, c.id) + 1]
    case None => s.ticks
  }

  function Next(cfg: Config, s: Sys, step: Step): Sys
    requires Enabled(cfg, s, step)
  {
    var s1 := s.(db := After(cfg, s, step));
    match step
    case Advance(elapsed) => s1.(clock := s.clock + elapsed)
    case Submit(id, _, _, _, _) => s1.(used := s.used + {id})
    case Cancel(_, _) => s1
    case Callback(_, _, _, _) => s1
    case RescueScan(at) => s1.(pending := Stuck(cfg, s.db, at))
    case RequeuePending(id, _) => s1.(pending := s.pending - {id})
    case DropPending => s1.(pending := {}, pruning := {})
    case RetentionScan(_, ids) => s1.(pruning := ids)
    case Prune(ids) => s1.(pruning := s.pruning - ids)
    case Crash => s1.(booting := true, workers := map[], pending := {}, pruning := {})
    case RecoverScan => s1.(pending := Interrupted(s.db))
    case ResetPoll(_, _) => s1
    case BootDone => s1.(booting := false, pending := {})
    case _ =>
      var (w, x) := Moved(cfg, s, step);
      s1.(workers := s.workers[w := x], ticks := CountTick(s, step))
  }

  /** Only workers' steps count ticks, only submissions use up ids. */
  lemma NextCounts(cfg: Config, s: Sys, step: Step)
    requires Enabled(cfg, s, step)
    ensures Next(cfg, s, step).ticks == (if ByWorker(step) then CountTick(s, step) else s.ticks)
    ensures Next(cfg, s, step).used == (if step.Submit? then s.used + {step.id} else s.used)
  {
  }
}
