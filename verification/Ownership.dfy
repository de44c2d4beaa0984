/**
 Who may act on a job: exclusive ownership of in-flight jobs, safe rescue and recovery,
 one-way parking and terminal-only retention, over every run of the worker pool.
 */
module Ownership {
  import opened Wrappers
  import opened JobTable
  import opened JobProtocol

  // ----- What each actor holds ----------------------------------------------

  /** The worker is processing an attempt of job k. */
  predicate Owns(x: Worker, k: JobId) {
    (x.Claimed? || x.Attempt?) && x.id == k
  }

  /** The worker is running a poll tick of job k. */
  predicate TicksOn(x: Worker, k: JobId) {
    (x.TickClaimed? || x.Tick? || x.TickEnd?) && x.id == k
  }

  predicate PanickedOn(x: Worker, k: JobId) {
    x.Panicked? && x.id == k
  }

  predicate Holds(x: Worker, c: Cand) {
    x.Choosing? && c in x.cands
  }

  predicate Parked(j: Job) {
    j.state == AwaitingTarget || IsTerminal(j.state)
  }

  predicate CandMatches(c: Cand, j: Job) {
    && c.client == j.req.client && c.target == j.req.target && c.maxAttempts == j.req.maxAttempts
    && (c.poll ==> Parked(j))
  }

  // ----- The invariant, job by job ------------------------------------------

  ghost predicate WorkerOk(s: Sys, k: JobId, x: Worker) {
    && (Owns(x, k) ==>
          k in s.db.jobs && s.db.jobs[k].state == if x.Attempt? && x.forwarded then Forwarding else Resolving)
    && (TicksOn(x, k) || PanickedOn(x, k) ==> k in s.used && (k in s.db.jobs ==> Parked(s.db.jobs[k])))
    && (forall c | Holds(x, c) && c.id == k :: k in s.used && (k in s.db.jobs ==> CandMatches(c, s.db.jobs[k])))
  }

  /** From awaiting_target the trail only ever ends. */
  ghost predicate AwaitingEnds(log: seq<Event>) {
    forall i | 0 <= i < |log| :: log[i].from == Some(AwaitingTarget) ==> IsTerminal(log[i].to)
  }

  ghost predicate Unowned(s: Sys, k: JobId) {
    forall w :: !Owns(W(s, w), k)
  }

  ghost predicate JobOk(s: Sys, k: JobId) {
    && (k in s.db.jobs ==> k in s.used)
    && AwaitingEnds(Log(s.db, k))
    && (forall w :: WorkerOk(s, k, W(s, w)))
    && (forall v, w :: Owns(W(s, v), k) && Owns(W(s, w), k) ==> v == w)
    && (k in s.pending ==> k in s.db.jobs && InFlight(s.db.jobs[k].state) && Unowned(s, k))
    && (k in s.pruning ==> k in s.used && (k in s.db.jobs ==> IsTerminal(s.db.jobs[k].state)))
  }

  ghost predicate NoWorkers(s: Sys) {
    forall w :: W(s, w) == Idle
  }

  ghost predicate Inv(s: Sys) {
    && Valid(s.db)
    && (forall k :: JobOk(s, k))
    && (s.booting ==> NoWorkers(s))
  }

  /** The hypothesis on live workers: each writes within twice its job timeout of its last write. */
  ghost predicate Timely(cfg: Config, s: Sys) {
    forall w, k | Owns(W(s, w), k) && k in s.db.jobs ::
      s.clock - s.db.jobs[k].updatedAt <= 2 * cfg.jobTimeout(s.db.jobs[k].req.target)
  }

  // ----- Frames --------------------------------------------------------------

  /** x' claims nothing about job k that x did not. */
  ghost predicate NothingNew(x: Worker, x': Worker, k: JobId) {
    x' == x ||
    (!Owns(x', k) && !TicksOn(x', k) && !PanickedOn(x', k) && forall c | Holds(x', c) && c.id == k :: Holds(x, c))
  }

  predicate SameRow(db: Db, db': Db, k: JobId) {
    && (k in db.jobs <==> k in db'.jobs)
    && (k in db.jobs ==> db'.jobs[k] == db.jobs[k])
    && Log(db', k) == Log(db, k)
  }

  ghost predicate Untouched(s: Sys, s': Sys, k: JobId) {
    && SameRow(s.db, s'.db, k)
    && (k in s.used ==> k in s'.used)
    && (forall w :: NothingNew(W(s, w), W(s', w), k))
    && (k in s'.pending ==> k in s.pending)
    && (k in s'.pruning ==> k in s.pruning)
  }

  lemma Frame(s: Sys, s': Sys, k: JobId)
    requires JobOk(s, k) && Untouched(s, s', k)
    ensures JobOk(s', k)
  {
    forall w ensures WorkerOk(s', k, W(s', w)) {
      assert WorkerOk(s, k, W(s, w)) && NothingNew(W(s, w), W(s', w), k);
    }
    forall v, w | Owns(W(s', v), k) && Owns(W(s', w), k) ensures v == w {
      assert NothingNew(W(s, v), W(s', v), k) && NothingNew(W(s, w), W(s', w), k);
    }
    if k in s'.pending {
      forall w ensures !Owns(W(s', w), k) { assert NothingNew(W(s, w), W(s', w), k); }
    }
  }

  lemma OtherRows(db: Db, op: Op, k: JobId)
    requires !op.OpDelete? && op.id != k
    ensures SameRow(db, Apply(db, op), k)
  {
    match op
    case OpMark(_, _, _) =>
    case OpCreate(_, _, _, _, _) =>
    case OpClaim(_, _, _, _) =>
    case _ =>
  }

  lemma AwaitingEndsAppend(log: seq<Event>, e: Event)
    requires AwaitingEnds(log) && (e.from == Some(AwaitingTarget) ==> IsTerminal(e.to))
    ensures AwaitingEnds(log + [e])
  {
  }

  // ----- One actor moves -------------------------------------------------------

  /** Only worker w moved, to x'; scans may only have shrunk. */
  ghost predicate OneMoves(s: Sys, s': Sys, w: WorkerId, x': Worker) {
    && (forall v :: W(s', v) == if v == w then x' else W(s, v))
    && s'.used == s.used && s'.pending <= s.pending && s'.pruning <= s.pruning
  }

  ghost predicate AllOk(s: Sys) {
    forall k :: JobOk(s, k)
  }

  lemma NoEffect(s: Sys, s': Sys, w: WorkerId, x': Worker)
    requires AllOk(s) && OneMoves(s, s', w, x') && s'.db == s.db
    requires forall k :: NothingNew(W(s, w), x', k)
    ensures AllOk(s')
  {
    forall k ensures JobOk(s', k) { Frame(s, s', k); }
  }

  /** The row of `id` changed and nobody who relied on its old state is left. */
  lemma RowChange(s: Sys, s': Sys, w: WorkerId, x': Worker, id: JobId)
    requires JobOk(s, id) && OneMoves(s, s', w, x')
    requires id in s.db.jobs && id in s'.db.jobs && s'.db.jobs[id].req == s.db.jobs[id].req
    requires AwaitingEnds(Log(s'.db, id))
    requires !IsTerminal(s.db.jobs[id].state)
    requires !InFlight(s.db.jobs[id].state) || Owns(W(s, w), id) || id in s.pending
    requires id !in s'.pending
    requires Parked(s.db.jobs[id]) ==> Parked(s'.db.jobs[id])
    requires WorkerOk(s', id, x')
    ensures JobOk(s', id)
  {
    forall v ensures WorkerOk(s', id, W(s', v)) && (v != w ==> !Owns(W(s', v), id)) {
      assert WorkerOk(s, id, W(s, v)) && WorkerOk(s, id, W(s, w));
    }
  }

  /** A write on one row by one actor keeps every job sound. */
  lemma Effect(s: Sys, s': Sys, w: WorkerId, x': Worker, op: Op)
    requires AllOk(s) && OneMoves(s, s', w, x')
    requires !op.OpDelete? && s'.db == Apply(s.db, op)
    requires forall k | k != op.id :: NothingNew(W(s, w), x', k)
    requires JobOk(s', op.id)
    ensures AllOk(s')
  {
    forall k ensures JobOk(s', k) {
      if k != op.id {
        OtherRows(s.db, op, k);
        Frame(s, s', k);
      }
    }
  }

  /** What worker x' may believe about job `id` once its row is in `state`. */
  ghost predicate Believes(s: Sys, x: Worker, x': Worker, id: JobId, state: JobState) {
    && (Owns(x', id) ==> Owns(x, id) && state == if x'.Attempt? && x'.forwarded then Forwarding else Resolving)
    && (TicksOn(x', id) || PanickedOn(x', id) ==> id in s.used && IsTerminal(state))
    && (forall k | k != id :: NothingNew(x, x', k))
    && (forall c | Holds(x', c) && c.id == id :: Holds(x, c))
  }

  lemma MarkedRow(db: Db, id: JobId, m: Mark, now: Time)
    requires Judge(db, id, m) == Done
    ensures var db' := Transition(db, id, m, now);
            && id in db'.jobs && db'.jobs[id].req == db.jobs[id].req && db'.jobs[id].state == Target(m)
            && Log(db', id) == Log(db, id) + [Event(Some(db.jobs[id].state), Target(m), now)]
  {
  }

  /** A transition that goes through, by an actor entitled to it. */
  lemma MarkEffect(s: Sys, s': Sys, w: WorkerId, x': Worker, id: JobId, m: Mark, now: Time)
    requires AllOk(s) && OneMoves(s, s', w, x') && s'.db == Transition(s.db, id, m, now)
    requires Judge(s.db, id, m) == Done
    requires !InFlight(s.db.jobs[id].state) || Owns(W(s, w), id) || id in s.pending
    requires s.db.jobs[id].state == AwaitingTarget ==> IsTerminal(Target(m))
    requires id !in s'.pending
    requires Believes(s, W(s, w), x', id, Target(m))
    ensures AllOk(s')
  {
    assert JobOk(s, id) && WorkerOk(s, id, W(s, w));
    MarkedRow(s.db, id, m, now);
    AwaitingEndsAppend(Log(s.db, id), Event(Some(s.db.jobs[id].state), Target(m), now));
    RowChange(s, s', w, x', id);
    Effect(s, s', w, x', OpMark(id, m, now));
  }

  /** The same worker goes on with the same job; nothing is written. */
  lemma Rephrase(s: Sys, s': Sys, w: WorkerId, x': Worker, id: JobId)
    requires AllOk(s) && OneMoves(s, s', w, x') && s'.db == s.db
    requires Owns(x', id) ==> Owns(W(s, w), id)
    requires forall k | k != id :: NothingNew(W(s, w), x', k)
    requires WorkerOk(s', id, x')
    ensures AllOk(s')
  {
    forall k ensures JobOk(s', k) {
      if k != id { Frame(s, s', k); } else {
        assert JobOk(s, id);
        forall v ensures WorkerOk(s', id, W(s', v)) { assert WorkerOk(s, id, W(s, v)); }
      }
    }
  }

  // ----- The steps of a worker ----------------------------------------------------

  lemma AttemptWrite(s: Sys, s': Sys, w: WorkerId, x': Worker, m: Mark, now: Time)
    requires AllOk(s) && W(s, w).Attempt? && OneMoves(s, s', w, x')
    requires Accepts(m, if W(s, w).forwarded then Forwarding else Resolving)
    requires s'.db == Transition(s.db, W(s, w).id, m, now)
    requires Believes(s, W(s, w), x', W(s, w).id, Target(m))
    ensures AllOk(s')
  {
    var id := W(s, w).id;
    assert JobOk(s, id) && WorkerOk(s, id, W(s, w));
    assert id !in s.pending;
    MarkEffect(s, s', w, x', id, m, now);
  }

  lemma ResolveStep(cfg: Config, s: Sys, step: Step)
    requires AllOk(s) && Enabled(cfg, s, step) && step.Resolve?
    ensures AllOk(Next(cfg, s, step))
  {
    var x := W(s, step.w);
    assert JobOk(s, x.id) && WorkerOk(s, x.id, x);
    AttemptWrite(s, Next(cfg, s, step), step.w, x.(forwarded := true), SetResolved(step.payload), step.at);
  }

  lemma ParkStep(cfg: Config, s: Sys, step: Step)
    requires AllOk(s) && Enabled(cfg, s, step) && step.Park?
    ensures AllOk(Next(cfg, s, step))
  {
    var x := W(s, step.w);
    assert JobOk(s, x.id) && WorkerOk(s, x.id, x);
    AttemptWrite(s, Next(cfg, s, step), step.w, Idle, Write(cfg, s, step).value.mark, step.written);
  }

  lemma FinishStep(cfg: Config, s: Sys, step: Step)
    requires AllOk(s) && Enabled(cfg, s, step) && step.Finish?
    ensures AllOk(Next(cfg, s, step))
  {
    AttemptWrite(s, Next(cfg, s, step), step.w, Idle, step.mark, step.at);
  }

  lemma ClaimStep(cfg: Config, s: Sys, step: Step)
    requires AllOk(s) && Enabled(cfg, s, step) && step.TryClaim?
    ensures AllOk(Next(cfg, s, step))
  {
    var s', x, w := Next(cfg, s, step), W(s, step.w), step.w;
    var c := x.cands[0];
    assert JobOk(s, c.id) && WorkerOk(s, c.id, x);
    if c.attempts >= c.maxAttempts {
      ExhaustedEffect(s, s', w, c.id, x.now);
    } else if ClaimWins(s.db, c.id, c.client, cfg.maxConcurrent(c.client), x.now) {
      ClaimEffect(s, s', w, OpClaim(c.id, c.client, cfg.maxConcurrent(c.client), x.now));
    } else {
      NoEffect(s, s', w, Choosing(x.now, x.cands[1..]));
    }
  }

  lemma ExhaustedEffect(s: Sys, s': Sys, w: WorkerId, id: JobId, now: Time)
    requires AllOk(s) && W(s, w).Choosing? && W(s, w).cands != []
    requires OneMoves(s, s', w, Choosing(W(s, w).now, W(s, w).cands[1..]))
    requires s'.db == Transition(s.db, id, FailExhausted, now)
    ensures AllOk(s')
  {
    assert JobOk(s, id);
    if Judge(s.db, id, FailExhausted) == Done {
      MarkEffect(s, s', w, W(s', w), id, FailExhausted, now);
    } else {
      NoEffect(s, s', w, W(s', w));
    }
  }

  lemma ClaimEffect(s: Sys, s': Sys, w: WorkerId, op: Op)
    requires AllOk(s) && op.OpClaim? && OneMoves(s, s', w, Claimed(op.id)) && s'.db == Apply(s.db, op)
    requires ClaimWins(s.db, op.id, op.client, op.maxConcurrent, op.now)
    ensures AllOk(s')
  {
    assert JobOk(s, op.id);
    AwaitingEndsAppend(Log(s.db, op.id), Event(Some(Received), Resolving, op.now));
    RowChange(s, s', w, Claimed(op.id), op.id);
    Effect(s, s', w, Claimed(op.id), op);
  }

  /** A waiting row is re-timed: a poll claim, the end of a tick, a reset at start-up. */
  lemma RetimeEffect(s: Sys, s': Sys, w: WorkerId, x': Worker, op: Op)
    requires AllOk(s) && OneMoves(s, s', w, x') && s'.db == Apply(s.db, op)
    requires op.OpPoll? || op.OpReschedule?
    requires !Owns(x', op.id) && op.id !in s'.pending
    requires forall k | k != op.id :: NothingNew(W(s, w), x', k)
    requires op.id in s.db.jobs && s.db.jobs[op.id].state == AwaitingTarget
    requires WorkerOk(s', op.id, x')
    ensures AllOk(s')
  {
    assert JobOk(s, op.id);
    RowChange(s, s', w, x', op.id);
    Effect(s, s', w, x', op);
  }

  lemma PollStep(cfg: Config, s: Sys, step: Step)
    requires AllOk(s) && Enabled(cfg, s, step) && step.TryPoll?
    ensures AllOk(Next(cfg, s, step))
  {
    var s', x, w := Next(cfg, s, step), W(s, step.w), step.w;
    var c, x' := x.cands[0], W(s', w);
    assert JobOk(s, c.id) && WorkerOk(s, c.id, x) && Holds(x, c);
    if x'.TickClaimed? {
      RetimeEffect(s, s', w, x', Write(cfg, s, step).value);
    } else {
      NoEffect(s, s', w, x');
    }
  }

  lemma ReadBackStep(cfg: Config, s: Sys, step: Step)
    requires AllOk(s) && Enabled(cfg, s, step) && step.ReadBack?
    ensures AllOk(Next(cfg, s, step))
  {
    var s', x, w := Next(cfg, s, step), W(s, step.w), step.w;
    assert JobOk(s, x.id) && WorkerOk(s, x.id, x);
    Rephrase(s, s', w, W(s', w), x.id);
  }

  /** The tick's outcome: written if the job still waits, dropped if it already ended. */
  lemma EndsWaiting(s: Sys, s': Sys, w: WorkerId, x': Worker, m: Mark, now: Time)
    requires AllOk(s) && OneMoves(s, s', w, x') && (m.MarkFailed? || m.MarkCompleted?)
    requires W(s, w).Tick? || W(s, w).Panicked?
    requires s'.db == Transition(s.db, W(s, w).id, m, now)
    requires x' == Idle || TicksOn(x', W(s, w).id)
    ensures AllOk(s')
  {
    var id := W(s, w).id;
    assert JobOk(s, id) && WorkerOk(s, id, W(s, w));
    if Judge(s.db, id, m) == Done {
      assert id !in s.pending;
      MarkEffect(s, s', w, x', id, m, now);
    } else {
      Rephrase(s, s', w, x', id);
    }
  }

  lemma JudgementStep(cfg: Config, s: Sys, step: Step)
    requires AllOk(s) && Enabled(cfg, s, step) && (step.Judgement? || step.FailPanicked?)
    ensures AllOk(Next(cfg, s, step))
  {
    var s', x, w := Next(cfg, s, step), W(s, step.w), step.w;
    assert JobOk(s, x.id) && WorkerOk(s, x.id, x);
    match step
    case FailPanicked(_, at) => EndsWaiting(s, s', w, Idle, MarkFailed("internal"), at);
    case Judgement(_, at, outcome) =>
      var x' := TickEnd(x.id, x.lease, x.since, x.target);
      if outcome.Some? {
        EndsWaiting(s, s', w, x', outcome.value, at);
      } else {
        Rephrase(s, s', w, x', x.id);
      }
  }

  lemma EndTickStep(cfg: Config, s: Sys, step: Step)
    requires AllOk(s) && Enabled(cfg, s, step) && (step.Reschedule? || step.Panic?)
    ensures AllOk(Next(cfg, s, step))
  {
    var s', x, w := Next(cfg, s, step), W(s, step.w), step.w;
    assert JobOk(s, x.id) && WorkerOk(s, x.id, x);
    if x.id in s.db.jobs && s.db.jobs[x.id].state == AwaitingTarget {
      RetimeEffect(s, s', w, W(s', w), Write(cfg, s, step).value);
    } else {
      Rephrase(s, s', w, W(s', w), x.id);
    }
  }

  lemma LookStep(cfg: Config, s: Sys, step: Step)
    requires AllOk(s) && Enabled(cfg, s, step) && step.Look?
    ensures AllOk(Next(cfg, s, step))
  {
    var s', x' := Next(cfg, s, step), Choosing(step.at, step.cands);
    forall k ensures JobOk(s', k) {
      assert JobOk(s, k);
      assert WorkerOk(s', k, x') by {
        forall c | Holds(x', c) && c.id == k ensures k in s.used && k in s.db.jobs && CandMatches(c, s.db.jobs[k]) {
          assert ReadsRow(s, c, step.at);
        }
      }
      LookFrame(s, s', step.w, x', k);
    }
  }

  lemma LookFrame(s: Sys, s': Sys, w: WorkerId, x': Worker, k: JobId)
    requires JobOk(s, k) && OneMoves(s, s', w, x') && s'.db == s.db && x'.Choosing? && WorkerOk(s', k, x')
    ensures JobOk(s', k)
  {
    forall v ensures WorkerOk(s', k, W(s', v)) { assert WorkerOk(s, k, W(s, v)); }
  }

  lemma WorkerSteps(cfg: Config, s: Sys, step: Step)
    requires AllOk(s) && Enabled(cfg, s, step) && ByWorker(step)
    ensures AllOk(Next(cfg, s, step))
  {
    match step
    case Look(_, _, _) => LookStep(cfg, s, step);
    case TryClaim(_) => ClaimStep(cfg, s, step);
    case TryPoll(_) => PollStep(cfg, s, step);
    case ReadBack(_) => ReadBackStep(cfg, s, step);
    case Judgement(_, _, _) => JudgementStep(cfg, s, step);
    case FailPanicked(_, _) => JudgementStep(cfg, s, step);
    case Reschedule(_, _) => EndTickStep(cfg, s, step);
    case Panic(_, _) => EndTickStep(cfg, s, step);
    case Skip(w) => NoEffect(s, Next(cfg, s, step), w, Moved(cfg, s, step).1);
    case Lose(w) => NoEffect(s, Next(cfg, s, step), w, Idle);
    case Resolve(_, _, _) => ResolveStep(cfg, s, step);
    case Park(_, _, _, _) => ParkStep(cfg, s, step);
    case Finish(_, _, _) => FinishStep(cfg, s, step);
  }

  // ----- The other actors -------------------------------------------------------

  lemma SubmitStep(cfg: Config, s: Sys, step: Step)
    requires AllOk(s) && Enabled(cfg, s, step) && step.Submit?
    ensures AllOk(Next(cfg, s, step))
  {
    var s', id := Next(cfg, s, step), step.id;
    forall k ensures JobOk(s', k) {
      assert JobOk(s, k);
      if k != id {
        OtherRows(s.db, Write(cfg, s, step).value, k);
        Frame(s, s', k);
      } else {
        forall v ensures WorkerOk(s', id, W(s', v)) && !Owns(W(s', v), id) { assert WorkerOk(s, id, W(s, v)); }
      }
    }
  }

  /** A transition by the API or the sweeper: no worker moves. */
  lemma OutsideMark(s: Sys, s': Sys, id: JobId, m: Mark, now: Time)
    requires AllOk(s) && (forall v :: W(s', v) == W(s, v)) && s'.used == s.used
    requires s'.pending <= s.pending && s'.pruning <= s.pruning && id !in s'.pending
    requires m == MarkCancelled || (m == RequeueNow && id in s.pending)
    requires s'.db == Transition(s.db, id, m, now)
    ensures AllOk(s')
  {
    assert JobOk(s, id) && WorkerOk(s, id, W(s, 0));
    if Judge(s.db, id, m) == Done {
      assert !Owns(W(s, 0), id);
      if TicksOn(W(s, 0), id) || PanickedOn(W(s, 0), id) { assert Parked(s.db.jobs[id]); }
      MarkEffect(s, s', 0, W(s, 0), id, m, now);
    } else {
      NoEffect(s, s', 0, W(s, 0));
    }
  }

  lemma CancelStep(cfg: Config, s: Sys, step: Step)
    requires AllOk(s) && Enabled(cfg, s, step) && step.Cancel?
    ensures AllOk(Next(cfg, s, step))
  {
    assert JobOk(s, step.id);
    if step.id in s.pending {
      // In flight: the cancellation is refused.
      NoEffect(s, Next(cfg, s, step), 0, W(s, 0));
    } else {
      OutsideMark(s, Next(cfg, s, step), step.id, MarkCancelled, step.at);
    }
  }

  lemma ResetStep(cfg: Config, s: Sys, step: Step)
    requires AllOk(s) && NoWorkers(s) && Enabled(cfg, s, step) && step.ResetPoll?
    ensures AllOk(Next(cfg, s, step))
  {
    var s' := Next(cfg, s, step);
    assert JobOk(s, step.id) && W(s, 0) == Idle;
    if step.id in s.db.jobs && s.db.jobs[step.id].state == AwaitingTarget {
      RetimeEffect(s, s', 0, Idle, Write(cfg, s, step).value);
    } else {
      NoEffect(s, s', 0, Idle);
    }
  }

  /** Only the two scan results changed, and what they newly hold is safe to act on. */
  lemma ScanFrame(s: Sys, s': Sys, k: JobId)
    requires JobOk(s, k) && s'.db == s.db && s'.workers == s.workers && s'.used == s.used
    requires k in s'.pending ==> k in s.db.jobs && InFlight(s.db.jobs[k].state) && Unowned(s, k)
    requires k in s'.pruning ==> k in s.pruning || (k in s.db.jobs && IsTerminal(s.db.jobs[k].state))
    ensures JobOk(s', k)
  {
    forall v ensures WorkerOk(s', k, W(s', v)) && W(s', v) == W(s, v) { assert WorkerOk(s, k, W(s, v)); }
  }

  /** The rescue scan takes up only jobs no live worker holds. */
  lemma RescueScanStep(cfg: Config, s: Sys, step: Step)
    requires AllOk(s) && Enabled(cfg, s, step) && Timely(cfg, s) && step.RescueScan?
    ensures AllOk(Next(cfg, s, step))
  {
    var s' := Next(cfg, s, step);
    forall k ensures JobOk(s', k) {
      if k in s'.pending {
        forall w ensures !Owns(W(s, w), k) { }
      }
      ScanFrame(s, s', k);
    }
  }

  lemma RecoverScanStep(cfg: Config, s: Sys, step: Step)
    requires AllOk(s) && NoWorkers(s) && Enabled(cfg, s, step) && step.RecoverScan?
    ensures AllOk(Next(cfg, s, step))
  {
    var s' := Next(cfg, s, step);
    forall k ensures JobOk(s', k) {
      assert JobOk(s, k);
      ScanFrame(s, s', k);
    }
  }

  lemma RetentionScanStep(cfg: Config, s: Sys, step: Step)
    requires AllOk(s) && Enabled(cfg, s, step) && step.RetentionScan?
    ensures AllOk(Next(cfg, s, step))
  {
    var s' := Next(cfg, s, step);
    forall k ensures JobOk(s', k) {
      assert k in step.ids ==> Expired(s.db, k, step.cutoff);
      ScanFrame(s, s', k);
    }
  }

  lemma PruneStep(cfg: Config, s: Sys, step: Step)
    requires AllOk(s) && Enabled(cfg, s, step) && step.Prune?
    ensures AllOk(Next(cfg, s, step))
  {
    var s' := Next(cfg, s, step);
    forall k ensures JobOk(s', k) {
      assert JobOk(s, k);
      if k in step.ids {
        forall v ensures WorkerOk(s', k, W(s', v)) && !Owns(W(s', v), k) { assert WorkerOk(s, k, W(s, v)); }
      } else {
        Frame(s, s', k);
      }
    }
  }

  /** Steps that write no job row and let no actor learn anything. */
  lemma QuietSteps(cfg: Config, s: Sys, step: Step)
    requires AllOk(s) && Enabled(cfg, s, step)
    requires step.Advance? || step.Callback? || step.DropPending? || step.Crash? || step.BootDone?
    ensures AllOk(Next(cfg, s, step))
  {
    var s' := Next(cfg, s, step);
    forall k ensures JobOk(s', k) {
      assert JobOk(s, k) && SameRow(s.db, s'.db, k);
      forall v ensures NothingNew(W(s, v), W(s', v), k) { }
      Frame(s, s', k);
    }
  }

  lemma OutsideSteps(cfg: Config, s: Sys, step: Step)
    requires Inv(s) && Timely(cfg, s) && Enabled(cfg, s, step) && !ByWorker(step)
    ensures AllOk(Next(cfg, s, step))
  {
    match step
    case Submit(_, _, _, _, _) => SubmitStep(cfg, s, step);
    case Cancel(_, _) => CancelStep(cfg, s, step);
    case RequeuePending(id, at) => OutsideMark(s, Next(cfg, s, step), id, RequeueNow, at);
    case ResetPoll(_, _) => ResetStep(cfg, s, step);
    case RescueScan(_) => RescueScanStep(cfg, s, step);
    case RecoverScan => RecoverScanStep(cfg, s, step);
    case RetentionScan(_, _) => RetentionScanStep(cfg, s, step);
    case Prune(_) => PruneStep(cfg, s, step);
    case _ => QuietSteps(cfg, s, step);
  }

  lemma BootingStaysQuiet(cfg: Config, s: Sys, step: Step)
    requires s.booting ==> NoWorkers(s)
    requires Enabled(cfg, s, step)
    ensures var s' := Next(cfg, s, step); s'.booting ==> NoWorkers(s')
  {
    var s' := Next(cfg, s, step);
    if s.booting && s'.booting {
      forall w ensures W(s', w) == Idle {
        assert W(s, w) == Idle;
        if ByWorker(step) { assert W(s, step.w) == Idle; }
      }
    }
  }

  /** Every step of every actor keeps the invariant. */
  lemma StepKeepsInv(cfg: Config, s: Sys, step: Step)
    requires Inv(s) && Timely(cfg, s) && Enabled(cfg, s, step)
    ensures Inv(Next(cfg, s, step))
  {
    var write := Write(cfg, s, step);
    if write.Some? { ApplyKeepsValid(s.db, write.value); }
    assert Next(cfg, s, step).db == After(cfg, s, step);
    BootingStaysQuiet(cfg, s, step);
    if ByWorker(step) {
      WorkerSteps(cfg, s, step);
    } else {
      OutsideSteps(cfg, s, step);
    }
  }

  // ----- Whole runs -------------------------------------------------------------------

  /** A pool starting on an empty store. */
  ghost predicate Start(s: Sys) {
    s == Sys(EMPTY, s.clock, true, map[], {}, {}, {}, map[])
  }

  /** A run of the system; tr[i] is the state before steps[i]. */
  ghost predicate Run(cfg: Config, tr: seq<Sys>, steps: seq<Step>) {
    && |tr| == |steps| + 1
    && Start(tr[0])
    && (forall i | 0 <= i < |steps| :: Takes(cfg, tr[i], steps[i], tr[i + 1]))
  }

  ghost predicate Takes(cfg: Config, s: Sys, step: Step, s': Sys) {
    Enabled(cfg, s, step) && s' == Next(cfg, s, step)
  }

  ghost predicate AlwaysTimely(cfg: Config, tr: seq<Sys>) {
    forall i | 0 <= i < |tr| :: Timely(cfg, tr[i])
  }

  lemma {:induction false} RunsKeepInv(cfg: Config, tr: seq<Sys>, steps: seq<Step>, i: nat)
    requires Run(cfg, tr, steps) && AlwaysTimely(cfg, tr) && i < |tr|
    ensures Inv(tr[i])
  {
    if i == 0 {
      var s := tr[0];
      forall k ensures JobOk(s, k) { }
    } else {
      RunsKeepInv(cfg, tr, steps, i - 1);
      assert Takes(cfg, tr[i - 1], steps[i - 1], tr[i]);
      StepKeepsInv(cfg, tr[i - 1], steps[i - 1]);
    }
  }

  /** In every state of every timely run no in-flight job has two live workers, and each
      worker's job is in exactly the state that worker believes it to be in. */
  lemma ExclusiveOwnership(cfg: Config, tr: seq<Sys>, steps: seq<Step>, i: nat, v: WorkerId, w: WorkerId, k: JobId)
    requires Run(cfg, tr, steps) && AlwaysTimely(cfg, tr) && i < |tr|
    requires Owns(W(tr[i], v), k)
    ensures k in tr[i].db.jobs && InFlight(tr[i].db.jobs[k].state)
    ensures Owns(W(tr[i], w), k) ==> v == w
  {
    RunsKeepInv(cfg, tr, steps, i);
    assert JobOk(tr[i], k) && WorkerOk(tr[i], k, W(tr[i], v));
  }

  /** Rescue and recovery requeue only jobs that are in flight and that no worker holds,
      although the requeue itself accepts any non-terminal state. */
  lemma RequeueIsSafe(cfg: Config, tr: seq<Sys>, steps: seq<Step>, i: nat)
    requires Run(cfg, tr, steps) && AlwaysTimely(cfg, tr)
    requires i < |steps| && steps[i].RequeuePending?
    ensures var id := steps[i].id;
            && id in tr[i].db.jobs && InFlight(tr[i].db.jobs[id].state) && Unowned(tr[i], id)
            && id in tr[i + 1].db.jobs && tr[i + 1].db.jobs[id].state == Received
  {
    RunsKeepInv(cfg, tr, steps, i);
    assert Takes(cfg, tr[i], steps[i], tr[i + 1]) && JobOk(tr[i], steps[i].id);
  }

  /** Once parked, a job only ever ends: its trail leaves awaiting_target for a terminal state only. */
  lemma ParkingIsOneWay(cfg: Config, tr: seq<Sys>, steps: seq<Step>, i: nat, k: JobId)
    requires Run(cfg, tr, steps) && AlwaysTimely(cfg, tr) && i < |tr|
    ensures AwaitingEnds(Log(tr[i].db, k))
  {
    RunsKeepInv(cfg, tr, steps, i);
    assert JobOk(tr[i], k);
  }

  /** Retention deletes only finished jobs, although the delete never re-checks the state. */
  lemma RetentionIsSafe(cfg: Config, tr: seq<Sys>, steps: seq<Step>, i: nat, k: JobId)
    requires Run(cfg, tr, steps) && AlwaysTimely(cfg, tr) && i < |steps|
    requires k in tr[i].db.jobs && k !in tr[i + 1].db.jobs
    ensures steps[i].Prune? && IsTerminal(tr[i].db.jobs[k].state)
  {
    RunsKeepInv(cfg, tr, steps, i);
    assert Takes(cfg, tr[i], steps[i], tr[i + 1]) && JobOk(tr[i], k);
    NextDb(cfg, tr[i], steps[i]);
    if !steps[i].Prune? { OnlyPruneRemoves(cfg, tr[i], steps[i], k); }
  }

  lemma OnlyPruneRemoves(cfg: Config, s: Sys, step: Step, k: JobId)
    requires Enabled(cfg, s, step) && k in s.db.jobs && !step.Prune?
    ensures k in After(cfg, s, step).jobs
  {
    var write := Write(cfg, s, step);
    if write.Some? { NoWriteRemoves(s.db, write.value, k); }
  }

  lemma NextDb(cfg: Config, s: Sys, step: Step)
    requires Enabled(cfg, s, step)
    ensures Next(cfg, s, step).db == After(cfg, s, step)
  {
  }

  lemma NoWriteRemoves(db: Db, op: Op, k: JobId)
    requires !op.OpDelete? && k in db.jobs
    ensures k in Apply(db, op).jobs
  {
    match op
    case OpMark(_, _, _) =>
    case OpClaim(_, _, _, _) =>
    case _ =>
  }

  /** The rescue scan would take a job from a live worker exactly when some live worker
      is late: its last write lies more than two job timeouts back. */
  lemma RescueStealsIffLate(cfg: Config, s: Sys)
    requires Inv(s)
    ensures (exists w, k :: Owns(W(s, w), k) && k in Stuck(cfg, s.db, s.clock)) <==> !Timely(cfg, s)
  {
    if !Timely(cfg, s) {
      var w, k :| Owns(W(s, w), k) && k in s.db.jobs &&
        s.clock - s.db.jobs[k].updatedAt > 2 * cfg.jobTimeout(s.db.jobs[k].req.target);
      assert JobOk(s, k) && WorkerOk(s, k, W(s, w));
      assert k in Stuck(cfg, s.db, s.clock);
    }
  }
}
