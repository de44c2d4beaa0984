/**
 Callback deliveries: any number of deliverers work from snapshots that may be stale, and
 RecordAttempt compares nothing but the attempt count.
 */
module Deliveries {
  import opened Wrappers
  import JobTable
  import DueOrder

  type JobId = JobTable.JobId
  type Time = JobTable.Time
  type Delivery = JobTable.Delivery

  datatype Standing = Pending | Delivered | GivenUp

  /** Delivery.State. */
  function StandingOf(d: Delivery): Standing {
    if d.deliveredAt.Some? then Delivered else if d.nextAt.None? then GivenUp else Pending
  }

  /** What one attempt came to: the status (0 without an answer) and whether there was an error. */
  datatype Answer = Answer(status: nat, failed: bool)

  datatype Verdict = Success | GiveUp | Retry

  /** classify: what the result of attempt number n means under a budget of max attempts. */
  function Classify(max: nat, n: nat, a: Answer): Verdict {
    if !a.failed then Success
    else if 300 <= a.status < 500 && a.status != 408 && a.status != 429 then GiveUp
    else if n >= max then GiveUp
    else Retry
  }

  /** The row as RecordAttempt leaves it. */
  function Recorded(d: Delivery, v: Verdict, now: Time, retryAt: Time): Delivery {
    d.(attempts := d.attempts + 1, nextAt := NextAt(v, retryAt), deliveredAt := DeliveredAt(v, now))
  }

  function NextAt(v: Verdict, retryAt: Time): Option<Time> {
    if v == Retry then Some(retryAt) else None
  }

  function DeliveredAt(v: Verdict, now: Time): Option<Time> {
    if v == Success then Some(now) else None
  }

  /** The row enqueueCallbackTx inserts. */
  function Enqueued(url: string, event: JobTable.JobState, now: Time): Delivery {
    JobTable.Delivery(url, event, 0, Some(now), None)
  }

  /** These are the rows the store's transactions write: a finished job's callback, and recorded attempts. */
  lemma StoreAgrees(db: JobTable.Db, j: JobTable.Job, to: JobTable.JobState, id: JobId, prev: nat, v: Verdict,
                    now: Time, retryAt: Time)
    ensures JobTable.Callback(j, to, now) ==
            if JobTable.IsTerminal(to) && j.req.callbackUrl != ""
              then Some(Enqueued(j.req.callbackUrl, to, now)) else None
    ensures JobTable.RecordAttempt(db, id, prev, DeliveredAt(v, now), NextAt(v, retryAt)).deliveries ==
            if id in db.deliveries && db.deliveries[id].attempts == prev
            then db.deliveries[id := Recorded(db.deliveries[id], v, now, retryAt)] else db.deliveries
  {
  }

  // ----- The protocol ------------------------------------------------------------------------------

  /** A deliverer between its read and its record. */
  datatype Snapshot = Snapshot(job: JobId, seen: Delivery)

  /** One recorded attempt. */
  datatype Entry = Entry(job: JobId, number: nat)

  datatype State = State(
    now: Time, rows: map<JobId, Delivery>, held: map<nat, Snapshot>, used: set<JobId>, log: seq<Entry>)

  datatype Step =
    | Tick(now: Time)
    | Enqueue(job: JobId, url: string, event: JobTable.JobState)
    | Read(k: nat, job: JobId)
    | Record(k: nat, answer: Answer, retryAt: Time)
    | Abandon(k: nat)
    | Delete(job: JobId)

  predicate DueNow(d: Delivery, now: Time) {
    d.deliveredAt.None? && d.nextAt.Some? && d.nextAt.value <= now
  }

  predicate Enabled(s: State, x: Step) {
    match x
    case Tick(now) => now >= s.now
    case Enqueue(job, _, _) => job !in s.used
    case Read(k, job) => k !in s.held && job in s.rows && DueNow(s.rows[job], s.now)
    case Record(k, answer, retryAt) => k in s.held
    case Abandon(k) => k in s.held
    case Delete(job) => job in s.rows
  }

  /** The record wins its compare-and-set. */
  predicate Wins(s: State, k: nat)
    requires k in s.held
  {
    var h := s.held[k];
    h.job in s.rows && s.rows[h.job].attempts == h.seen.attempts
  }

  function Next(max: nat, s: State, x: Step): State
    requires Enabled(s, x)
  {
    match x
    case Tick(now) => s.(now := now)
    case Enqueue(job, url, event) => s.(rows := s.rows[job := Enqueued(url, event, s.now)], used := s.used + {job})
    case Read(k, job) => s.(held := s.held[k := Snapshot(job, s.rows[job])])
    case Record(k, answer, retryAt) =>
      var h := s.held[k];
      if !Wins(s, k) then s.(held := s.held - {k})
      else
        var v := Classify(max, h.seen.attempts + 1, answer);
        s.(rows := s.rows[h.job := Recorded(s.rows[h.job], v, s.now, retryAt)], held := s.held - {k},
           log := s.log + [Entry(h.job, h.seen.attempts + 1)])
    case Abandon(k) => s.(held := s.held - {k})
    case Delete(job) => s.(rows := s.rows - {job})
  }

  // ----- What always holds ----------------------------------------------------------------------------

  /** Attempts a delivery may take. */
  function Budget(max: nat): nat {
    if max == 0 then 1 else max
  }

  /** A pending row has attempts left, no row exceeds the budget. */
  predicate RowOk(max: nat, d: Delivery) {
    && d.attempts <= Budget(max)
    && (StandingOf(d) == Pending ==> d.attempts < Budget(max))
  }

  /** A snapshot whose count still matches is the row, and the row is pending. */
  predicate HeldOk(s: State, h: Snapshot) {
    && h.job in s.used && StandingOf(h.seen) == Pending
    && (h.job in s.rows ==> h.seen.attempts <= s.rows[h.job].attempts)
    && (h.job in s.rows && h.seen.attempts == s.rows[h.job].attempts ==> s.rows[h.job] == h.seen)
  }

  /** How many attempts of a job are on record. */
  function Count(log: seq<Entry>, job: JobId): nat {
    if log == [] then 0 else Count(log[..|log| - 1], job) + if log[|log| - 1].job == job then 1 else 0
  }

  /** Entries of a job are numbered 1, 2, 3, ... in the order they were recorded. */
  ghost predicate Numbered(log: seq<Entry>) {
    forall i | 0 <= i < |log| :: log[i].number == Count(log[..i], log[i].job) + 1
  }

  ghost predicate LogOk(s: State, job: JobId) {
    && (job in s.rows ==> job in s.used && s.rows[job].attempts == Count(s.log, job))
    && (job !in s.used ==> Count(s.log, job) == 0)
  }

  ghost predicate Inv(max: nat, s: State) {
    && (forall job | job in s.rows :: RowOk(max, s.rows[job]))
    && (forall k | k in s.held :: HeldOk(s, s.held[k]))
    && (forall job :: LogOk(s, job)) && Numbered(s.log)
  }

  lemma CountNext(log: seq<Entry>, e: Entry, job: JobId)
    ensures Count(log + [e], job) == Count(log, job) + if e.job == job then 1 else 0
  {
    assert (log + [e])[..|log|] == log;
  }

  lemma NumberedNext(log: seq<Entry>, e: Entry)
    requires Numbered(log) && e.number == Count(log, e.job) + 1
    ensures Numbered(log + [e])
  {
    var more := log + [e];
    forall i | 0 <= i < |more| ensures more[i].number == Count(more[..i], more[i].job) + 1 {
      if i < |log| { assert more[..i] == log[..i]; } else { assert more[..i] == log; }
    }
  }

  lemma LogNext(s: State, s': State, e: Entry, job: JobId)
    requires LogOk(s, job) && s'.log == s.log + [e] && s'.used == s.used
             && e.job in s.used && s'.rows.Keys == s.rows.Keys
    requires job in s.rows ==> s'.rows[job].attempts == s.rows[job].attempts + if e.job == job then 1 else 0
    ensures LogOk(s', job)
  {
    CountNext(s.log, e, job);
  }

  /** Another snapshot of the job is stale now. */
  lemma HeldNext(s: State, s': State, job: JobId, h: Snapshot)
    requires HeldOk(s, h) && job in s.rows && job in s'.rows && s'.used == s.used
    requires s'.rows == s.rows[job := s'.rows[job]] && s'.rows[job].attempts == s.rows[job].attempts + 1
    ensures HeldOk(s', h)
  {
  }

  lemma RecordedRowOk(max: nat, d: Delivery, answer: Answer, now: Time, retryAt: Time)
    requires RowOk(max, d) && StandingOf(d) == Pending
    ensures RowOk(max, Recorded(d, Classify(max, d.attempts + 1, answer), now, retryAt))
  {
  }

  /** A won record: the row of one job is replaced and its attempt logged. */
  lemma WinKeepsInv(max: nat, s: State, s': State, k: nat, d: Delivery)
    requires Inv(max, s) && k in s.held && Wins(s, k) && RowOk(max, d)
             && d.attempts == s.rows[s.held[k].job].attempts + 1
    requires s' == s.(rows := s.rows[s.held[k].job := d], held := s.held - {k},
                      log := s.log + [Entry(s.held[k].job, d.attempts)])
    ensures Inv(max, s')
  {
    var h := s.held[k];
    assert HeldOk(s, h) && LogOk(s, h.job);
    NumberedNext(s.log, Entry(h.job, d.attempts));
    forall job ensures LogOk(s', job) {
      assert LogOk(s, job);
      LogNext(s, s', Entry(h.job, d.attempts), job);
    }
    forall i | i in s'.held ensures HeldOk(s', s'.held[i]) { HeldNext(s, s', h.job, s.held[i]); }
  }

  lemma RecordKeepsInv(max: nat, s: State, k: nat, answer: Answer, retryAt: Time)
    requires Inv(max, s) && k in s.held
    ensures Inv(max, Next(max, s, Record(k, answer, retryAt)))
  {
    var s', h := Next(max, s, Record(k, answer, retryAt)), s.held[k];
    assert HeldOk(s, h);
    if Wins(s, k) {
      RecordedRowOk(max, s.rows[h.job], answer, s.now, retryAt);
      WinKeepsInv(max, s, s', k, s'.rows[h.job]);
    } else {
      LossKeepsInv(max, s, k);
    }
  }

  lemma LossKeepsInv(max: nat, s: State, k: nat)
    requires Inv(max, s)
    ensures Inv(max, s.(held := s.held - {k}))
  {
    forall job ensures LogOk(s.(held := s.held - {k}), job) { assert LogOk(s, job); }
  }

  lemma StepKeepsInv(max: nat, s: State, x: Step)
    requires Inv(max, s) && Enabled(s, x)
    ensures Inv(max, Next(max, s, x))
  {
    var s' := Next(max, s, x);
    if x.Record? {
      RecordKeepsInv(max, s, x.k, x.answer, x.retryAt);
    } else {
      forall job ensures LogOk(s', job) { assert LogOk(s, job); }
      forall k | k in s'.held ensures HeldOk(s', s'.held[k]) {
        assert k in s.held ==> HeldOk(s, s.held[k]);
        if x.Read? { assert LogOk(s, x.job); }
      }
    }
  }

  // ----- Whole runs ------------------------------------------------------------------------------------

  ghost predicate Run(max: nat, states: seq<State>, steps: seq<Step>) {
    && |states| == |steps| + 1
    && forall i | 0 <= i < |steps| :: Takes(max, states[i], steps[i], states[i + 1])
  }

  ghost predicate Takes(max: nat, s: State, x: Step, s': State) {
    Enabled(s, x) && s' == Next(max, s, x)
  }

  predicate Start(s: State) {
    s.rows == map[] && s.held == map[] && s.used == {} && s.log == []
  }

  lemma {:induction false} RunsKeepInv(max: nat, states: seq<State>, steps: seq<Step>, n: nat)
    requires Run(max, states, steps) && Start(states[0]) && n < |states|
    ensures Inv(max, states[n])
  {
    if n > 0 {
      RunsKeepInv(max, states, steps, n - 1);
      assert Takes(max, states[n - 1], steps[n - 1], states[n]);
      StepKeepsInv(max, states[n - 1], steps[n - 1]);
    }
  }

  /** Delivered and given up never revert: the row of a settled delivery stays as it is until it is deleted. */
  lemma {:induction false} SettledIsFinal(max: nat, states: seq<State>, steps: seq<Step>, m: nat, n: nat, job: JobId)
    requires Run(max, states, steps) && Start(states[0]) && m <= n < |states|
    requires job in states[m].rows && StandingOf(states[m].rows[job]) != Pending
    ensures job in states[n].used && (job in states[n].rows ==> states[n].rows[job] == states[m].rows[job])
    decreases n - m
  {
    if m == n {
      RunsKeepInv(max, states, steps, n);
      assert LogOk(states[n], job);
    } else {
      SettledIsFinal(max, states, steps, m, n - 1, job);
      RunsKeepInv(max, states, steps, n - 1);
      assert Takes(max, states[n - 1], steps[n - 1], states[n]);
      SettledStays(max, states[n - 1], steps[n - 1], job);
    }
  }

  lemma SettledStays(max: nat, s: State, x: Step, job: JobId)
    requires Inv(max, s) && Enabled(s, x) && job in s.used && (job in s.rows ==> StandingOf(s.rows[job]) != Pending)
    ensures var s' := Next(max, s, x);
            job in s'.used && (job in s'.rows ==> job in s.rows && s'.rows[job] == s.rows[job])
  {
    if x.Record? { assert HeldOk(s, s.held[x.k]); }
  }

  /** Each attempt number of a delivery is recorded at most once. */
  lemma EachAttemptOnce(max: nat, states: seq<State>, steps: seq<Step>, n: nat, i: nat, k: nat)
    requires Run(max, states, steps) && Start(states[0]) && n < |states| && i < k < |states[n].log|
    ensures states[n].log[i] != states[n].log[k]
  {
    RunsKeepInv(max, states, steps, n);
    var log := states[n].log;
    if log[i].job == log[k].job {
      CountGrows(log, i + 1, k, log[i].job);
      assert log[..i + 1][..i] == log[..i];
    }
  }

  lemma {:induction false} CountGrows(log: seq<Entry>, i: nat, k: nat, job: JobId)
    requires i <= k <= |log|
    ensures Count(log[..i], job) <= Count(log[..k], job)
    decreases k
  {
    if i < k {
      CountGrows(log, i, k - 1, job);
      assert log[..k][..k - 1] == log[..k - 1];
    }
  }

  /** Once as many attempts are on record as the budget allows, the delivery is settled; there are never more. */
  lemma SettledInBudget(max: nat, states: seq<State>, steps: seq<Step>, n: nat, job: JobId)
    requires Run(max, states, steps) && Start(states[0]) && n < |states| && job in states[n].rows
    ensures var d, c := states[n].rows[job], Count(states[n].log, job);
            d.attempts == c <= Budget(max) && (c == Budget(max) ==> StandingOf(d) != Pending)
  {
    RunsKeepInv(max, states, steps, n);
    assert LogOk(states[n], job);
  }

  /** An answer that settles nothing: no final redirect or client error, and attempts are left. */
  predicate Retries(max: nat, n: nat, a: Answer) {
    a.failed && n < max && (a.status < 300 || a.status >= 500 || a.status == 408 || a.status == 429)
  }

  /** What an attempt makes of a row, by what later reads see: delivered, due again at the retry time, or given up. */
  ghost predicate Comes(max: nat, d: Delivery, a: Answer, now: Time, retryAt: Time, d': Delivery) {
    && d'.url == d.url && d'.event == d.event && d'.attempts == d.attempts + 1
    && d'.deliveredAt == (if a.failed then None else Some(now))
    && (StandingOf(d') == Delivered <==> !a.failed)
    && (StandingOf(d') == Pending <==> Retries(max, d.attempts + 1, a))
    && forall t :: DueNow(d', t) <==> Retries(max, d.attempts + 1, a) && retryAt <= t
  }

  lemma AttemptDecides(max: nat, d: Delivery, a: Answer, now: Time, retryAt: Time)
    ensures Comes(max, d, a, now, retryAt, Recorded(d, Classify(max, d.attempts + 1, a), now, retryAt))
  {
  }

  /** A callback is due from the moment its job finished. */
  lemma EnqueuedIsDue(url: string, event: JobTable.JobState, now: Time)
    ensures var d := Enqueued(url, event, now);
            && d.url == url && d.event == event && d.attempts == 0 && StandingOf(d) == Pending
            && forall t :: DueNow(d, t) <==> now <= t
  {
  }

  /** A pending delivery leaves that state exactly by a 2xx answer, a final 4xx or redirect, or the last attempt. */
  lemma RecordDecides(max: nat, s: State, k: nat, answer: Answer, retryAt: Time)
    requires Inv(max, s) && k in s.held && Wins(s, k)
    ensures var h := s.held[k];
            var d, d' := s.rows[h.job], Next(max, s, Record(k, answer, retryAt)).rows[h.job];
            StandingOf(d) == Pending && Comes(max, d, answer, s.now, retryAt, d')
  {
    assert HeldOk(s, s.held[k]);
    AttemptDecides(max, s.rows[s.held[k].job], answer, s.now, retryAt);
  }

  // ----- One deliverer's pass -----------------------------------------------------------------------------

  const DUE_BATCH := 50

  /** The due times of the deliveries due at now. */
  function DueAt(rows: map<JobId, Delivery>, now: Time): map<JobId, int> {
    map job | job in rows && DueNow(rows[job], now) :: rows[job].nextAt.value
  }

  class Deliverer {
    const max: nat
    var rows: map<JobId, Delivery>

    constructor (max: nat, rows: map<JobId, Delivery>)
      ensures this.max == max && this.rows == rows
    {
      this.max, this.rows := max, rows;
    }

    /** DueDeliveries: the most overdue first, at most a batch. */
    method DueDeliveries(now: Time) returns (batch: seq<JobId>)
      ensures DueOrder.IsBatch(DueAt(rows, now), DUE_BATCH, batch)
    {
      batch := DueOrder.Earliest(DueAt(rows, now), DUE_BATCH);
    }

    /** RecordAttempt: false when the row is gone or has moved on. */
    method RecordAttempt(job: JobId, prev: nat, v: Verdict, now: Time, retryAt: Time) returns (ok: bool)
      modifies this
      ensures ok <==> job in old(rows) && old(rows)[job].attempts == prev
      ensures rows == if ok then old(rows)[job := Recorded(old(rows)[job], v, now, retryAt)] else old(rows)
    {
      ok := job in rows && rows[job].attempts == prev;
      if ok { rows := rows[job := Recorded(rows[job], v, now, retryAt)]; }
    }

    /**
     deliverDue: every delivery of the due batch gets one attempt, no other changes. There is no answer when
     no attempt is made: the job vanished, its document does not encode, or the context ended.
     */
    method DeliverDue(answers: JobId -> Option<Answer>, now: Time, retryAt: JobId -> Time) returns (batch: seq<JobId>)
      requires forall job | job in rows :: RowOk(max, rows[job])
      modifies this
      ensures DueOrder.IsBatch(DueAt(old(rows), now), DUE_BATCH, batch)
      ensures PassedOver(max, old(rows), rows, batch, |batch|, answers, now, retryAt)
      ensures rows.Keys == old(rows).Keys
      ensures forall job | job in rows ::
                if job in batch && answers(job).Some?
                then Comes(max, old(rows)[job], answers(job).value, now, retryAt(job), rows[job])
                else rows[job] == old(rows)[job]
      ensures forall job | job in rows :: RowOk(max, rows[job])
    {
      batch := DueDeliveries(now);
      var seen := rows;
      for i := 0 to |batch|
        invariant PassedOver(max, seen, rows, batch, i, answers, now, retryAt)
      {
        var job := batch[i];
        InBatch(seen, now, batch, i);
        ghost var was := rows;
        var d, answer := seen[job], answers(job);
        if answer.Some? {
          var ok := RecordAttempt(job, d.attempts, Classify(max, d.attempts + 1, answer.value), now, retryAt(job));
        }
        PassOneMore(max, seen, was, rows, batch, i, answers, now, retryAt);
      }
      PassKeepsRows(max, seen, rows, now, batch, answers, retryAt);
      PassDecides(max, seen, rows, batch, answers, now, retryAt);
    }
  }

  /** What one pass makes of a due delivery: nothing without an attempt, else what the answer says. */
  function Attempted(max: nat, d: Delivery, answer: Option<Answer>, now: Time, retryAt: Time): Delivery {
    match answer
    case None => d
    case Some(a) => Recorded(d, Classify(max, d.attempts + 1, a), now, retryAt)
  }

  predicate Among(batch: seq<JobId>, n: nat, job: JobId)
    requires n <= |batch|
  {
    exists i | 0 <= i < n :: batch[i] == job
  }

  /** The first n deliveries of the batch had their attempt, the others are as they were. */
  ghost predicate PassedOver(max: nat, seen: map<JobId, Delivery>, rows: map<JobId, Delivery>, batch: seq<JobId>,
                             n: nat,
                             answers: JobId -> Option<Answer>, now: Time, retryAt: JobId -> Time) {
    && n <= |batch| && rows.Keys == seen.Keys
    && forall job | job in rows ::
         rows[job] == if Among(batch, n, job)
                      then Attempted(max, seen[job], answers(job), now, retryAt(job)) else seen[job]
  }

  lemma PassDecides(max: nat, seen: map<JobId, Delivery>, rows: map<JobId, Delivery>, batch: seq<JobId>,
                    answers: JobId -> Option<Answer>, now: Time, retryAt: JobId -> Time)
    requires PassedOver(max, seen, rows, batch, |batch|, answers, now, retryAt)
    ensures forall job | job in rows ::
              if job in batch && answers(job).Some?
              then Comes(max, seen[job], answers(job).value, now, retryAt(job), rows[job]) else rows[job] == seen[job]
  {
    forall job | job in rows
      ensures if job in batch && answers(job).Some?
              then Comes(max, seen[job], answers(job).value, now, retryAt(job), rows[job]) else rows[job] == seen[job]
    {
      assert job in batch <==> Among(batch, |batch|, job);
      if answers(job).Some? { AttemptDecides(max, seen[job], answers(job).value, now, retryAt(job)); }
    }
  }

  lemma InBatch(rows: map<JobId, Delivery>, now: Time, batch: seq<JobId>, i: nat)
    requires DueOrder.IsBatch(DueAt(rows, now), DUE_BATCH, batch) && i < |batch|
    ensures batch[i] in rows && DueNow(rows[batch[i]], now) && !Among(batch, i, batch[i])
  {
    assert batch[i] in DueAt(rows, now);
  }

  lemma PassOneMore(max: nat, seen: map<JobId, Delivery>, was: map<JobId, Delivery>, rows: map<JobId, Delivery>,
                    batch: seq<JobId>, n: nat, answers: JobId -> Option<Answer>, now: Time, retryAt: JobId -> Time)
    requires PassedOver(max, seen, was, batch, n, answers, now, retryAt) && n < |batch| && batch[n] in seen
    requires rows == was[batch[n] := Attempted(max, seen[batch[n]], answers(batch[n]), now, retryAt(batch[n]))]
    ensures PassedOver(max, seen, rows, batch, n + 1, answers, now, retryAt)
  {
    forall job ensures Among(batch, n + 1, job) <==> Among(batch, n, job) || job == batch[n] { }
  }

  lemma PassKeepsRows(max: nat, seen: map<JobId, Delivery>, rows: map<JobId, Delivery>, now: Time, batch: seq<JobId>,
                      answers: JobId -> Option<Answer>, retryAt: JobId -> Time)
    requires DueOrder.IsBatch(DueAt(seen, now), DUE_BATCH, batch) && forall job | job in seen :: RowOk(max, seen[job])
    requires PassedOver(max, seen, rows, batch, |batch|, answers, now, retryAt)
    ensures forall job | job in rows :: RowOk(max, rows[job])
  {
    forall job | job in rows ensures RowOk(max, rows[job]) {
      if Among(batch, |batch|, job) {
        var i :| 0 <= i < |batch| && batch[i] == job;
        InBatch(seen, now, batch, i);
      }
    }
  }
}
