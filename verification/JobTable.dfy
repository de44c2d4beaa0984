/**
 The job store as a value: the four tables and every transaction on them.

 One SQL transaction or single UPDATE is one function from the tables to the
 tables; the write lock taken at BEGIN makes each of them atomic. Time is in
 integer milliseconds, the resolution of the stored timestamps.
 */
module JobTable {
  import opened Wrappers

  type Time = int
  type JobId = string

  datatype JobState =
    | Received | Resolving | Forwarding | AwaitingTarget
    | Completed | Failed | Cancelled

  predicate IsTerminal(s: JobState) {
    s == Completed || s == Failed || s == Cancelled
  }

  /** A worker holds the job right now. */
  predicate InFlight(s: JobState) {
    s == Resolving || s == Forwarding
  }

  /** What the client submitted; these columns are written once, at insert. */
  datatype Request = Request(
    client: string, key: string, target: string, payload: string, callbackUrl: string,
    maxAttempts: int, priority: int, notBefore: Option<Time>)

  datatype Job = Job(
    req: Request, createdAt: Time, rowid: int,
    state: JobState, attempts: nat, nextAt: Option<Time>, updatedAt: Time,
    resolved: Option<string>, targetJobId: string, pollDeadline: Option<Time>,
    outcome: string, completedAt: Option<Time>)

  /** One row of the audit trail; the accept event has no previous state. */
  datatype Event = Event(from: Option<JobState>, to: JobState, at: Time)

  datatype Delivery = Delivery(
    url: string, event: JobState, attempts: nat, nextAt: Option<Time>, deliveredAt: Option<Time>)

  datatype Db = Db(
    jobs: map<JobId, Job>, trail: map<JobId, seq<Event>>,
    deliveries: map<JobId, Delivery>, served: map<string, Time>)

  const EMPTY := Db(map[], map[], map[], map[])

  // ----- Transitions -----------------------------------------------------

  /** The state changes that go through `transition`. */
  datatype Mark =
    | SetResolved(payload: string)
    | MarkAwaitingTarget(targetJobId: string, firstPollAt: Time, deadline: Time)
    | MarkCompleted(result: string)
    | MarkFailed(code: string)
    | MarkCancelled
    | Requeue(retryAt: Time)
    | RequeueNow
    | FailExhausted

  datatype Verdict = Done | NotFound | AlreadyTerminal | Refused

  function Target(m: Mark): JobState {
    match m
    case SetResolved(_) => Forwarding
    case MarkAwaitingTarget(_, _, _) => AwaitingTarget
    case MarkCompleted(_) => Completed
    case MarkFailed(_) => Failed
    case MarkCancelled => Cancelled
    case Requeue(_) => Received
    case RequeueNow => Received
    case FailExhausted => Failed
  }

  /** The guard on the current state, evaluated after the terminal check. */
  predicate Accepts(m: Mark, current: JobState) {
    match m
    case SetResolved(_) => current == Resolving
    case MarkAwaitingTarget(_, _, _) => current == Forwarding
    case MarkCancelled => !InFlight(current)
    case FailExhausted => current == Received
    case MarkCompleted(_) => true
    case MarkFailed(_) => true
    case Requeue(_) => true
    case RequeueNow => true
  }

  /** The columns a transition writes besides the trail. */
  function Marked(j: Job, m: Mark, now: Time): Job {
    var k := j.(state := Target(m), updatedAt := now);
    match m
    case SetResolved(p) => k.(resolved := Some(p))
    case MarkAwaitingTarget(t, first, deadline) =>
      k.(targetJobId := t, nextAt := Some(first), pollDeadline := Some(deadline))
    case MarkCompleted(r) => k.(outcome := r, nextAt := None, completedAt := Some(now))
    case MarkFailed(c) => k.(outcome := c, nextAt := None, completedAt := Some(now))
    case MarkCancelled => k.(nextAt := None, completedAt := Some(now))
    case Requeue(at) => k.(nextAt := Some(at))
    case RequeueNow => k.(nextAt := None)
    case FailExhausted => k.(outcome := "max_attempts_exceeded", nextAt := None, completedAt := Some(now))
  }

  function Judge(db: Db, id: JobId, m: Mark): Verdict {
    if id !in db.jobs then NotFound
    else if IsTerminal(db.jobs[id].state) then AlreadyTerminal
    else if !Accepts(m, db.jobs[id].state) then Refused
    else Done
  }

  function Log(db: Db, id: JobId): seq<Event> {
    if id in db.trail then db.trail[id] else []
  }

  /** The delivery row a terminal transition enqueues, when the job asked for a callback. */
  function Callback(j: Job, to: JobState, now: Time): Option<Delivery> {
    if IsTerminal(to) && j.req.callbackUrl != ""
    then Some(Delivery(j.req.callbackUrl, to, 0, Some(now), None))
    else None
  }

  function Transition(db: Db, id: JobId, m: Mark, now: Time): Db {
    if Judge(db, id, m) != Done then db
    else
      var j := db.jobs[id];
      var to := Target(m);
      db.(jobs := db.jobs[id := Marked(j, m, now)],
          trail := db.trail[id := Log(db, id) + [Event(Some(j.state), to, now)]],
          deliveries := match Callback(j, to, now)
                        case Some(d) => db.deliveries[id := d]
                        case None => db.deliveries)
  }

  // ----- Creation --------------------------------------------------------

  function Queued(db: Db, client: string): set<JobId> {
    set id | id in db.jobs && db.jobs[id].req.client == client && !IsTerminal(db.jobs[id].state)
  }

  function Holding(db: Db, client: string): set<JobId> {
    set id | id in db.jobs && db.jobs[id].req.client == client && InFlight(db.jobs[id].state)
  }

  /** The rows the unique index on (client, idempotency_key) holds for a key. */
  function Keyed(db: Db, client: string, key: string): set<JobId> {
    set id | id in db.jobs && key != "" && db.jobs[id].req.client == client && db.jobs[id].req.key == key
  }

  datatype Creation = Created | MustReplay | QueueFull | DuplicateId

  /** The insert transaction of one creation attempt. */
  function CreateVerdict(db: Db, id: JobId, req: Request, cap: int): Creation {
    if Keyed(db, req.client, req.key) != {} then
      // With a cap the key is looked up first; without one the index refuses the insert.
      MustReplay
    else if cap > 0 && |Queued(db, req.client)| >= cap then QueueFull
    else if id in db.jobs then DuplicateId
    else Created
  }

  function NewJob(req: Request, rowid: int, now: Time): Job {
    Job(req, now, rowid, Received, 0, req.notBefore, now, None, "", None, "", None)
  }

  function Create(db: Db, id: JobId, req: Request, rowid: int, cap: int, now: Time): Db {
    if CreateVerdict(db, id, req, cap) != Created then db
    else db.(jobs := db.jobs[id := NewJob(req, rowid, now)],
             trail := db.trail[id := [Event(None, Received, now)]])
  }

  // ----- Claims ----------------------------------------------------------

  predicate Due(at: Option<Time>, now: Time) {
    at.None? || at.value <= now
  }

  /** A due row, as the candidate query selects it. */
  predicate Eligible(j: Job, now: Time) {
    (j.state == Received && Due(j.nextAt, now)) ||
    (j.state == AwaitingTarget && j.nextAt.Some? && j.nextAt.value <= now)
  }

  predicate ClaimWins(db: Db, id: JobId, client: string, maxConcurrent: int, now: Time) {
    && id in db.jobs
    && db.jobs[id].state == Received
    && Due(db.jobs[id].nextAt, now)
    && (maxConcurrent <= 0 || |Holding(db, client)| < maxConcurrent)
  }

  function ClaimReceived(db: Db, id: JobId, client: string, maxConcurrent: int, now: Time): Db {
    if !ClaimWins(db, id, client, maxConcurrent, now) then db
    else
      var j := db.jobs[id];
      db.(jobs := db.jobs[id := j.(state := Resolving, attempts := j.attempts + 1, nextAt := None, updatedAt := now)],
          trail := db.trail[id := Log(db, id) + [Event(Some(Received), Resolving, now)]],
          served := db.served[client := now])
  }

  predicate PollWins(db: Db, id: JobId, prev: Time) {
    id in db.jobs && db.jobs[id].state == AwaitingTarget && db.jobs[id].nextAt == Some(prev)
  }

  function ClaimPollTick(db: Db, id: JobId, prev: Time, lease: Time, now: Time): Db {
    if !PollWins(db, id, prev) then db
    else db.(jobs := db.jobs[id := db.jobs[id].(nextAt := Some(lease), updatedAt := now)])
  }

  function ReschedulePoll(db: Db, id: JobId, at: Time, now: Time): Db {
    if !(id in db.jobs && db.jobs[id].state == AwaitingTarget) then db
    else db.(jobs := db.jobs[id := db.jobs[id].(nextAt := Some(at), updatedAt := now)])
  }

  // ----- Retention and delivery ------------------------------------------

  /** DELETE ... WHERE id IN (ids): no state check; events and deliveries cascade. */
  function Delete(db: Db, ids: set<JobId>): Db {
    db.(jobs := db.jobs - ids, trail := db.trail - ids, deliveries := db.deliveries - ids)
  }

  /** Stores one delivery attempt: a compare-and-set on the attempt count alone. */
  function RecordAttempt(db: Db, id: JobId, prev: nat, deliveredAt: Option<Time>, next: Option<Time>): Db {
    if !(id in db.deliveries && db.deliveries[id].attempts == prev) then db
    else db.(deliveries := db.deliveries[id :=
               db.deliveries[id].(attempts := prev + 1, deliveredAt := deliveredAt, nextAt := next)])
  }

  // ----- Every write, and whole runs of them ------------------------------

  datatype Op =
    | OpCreate(id: JobId, req: Request, rowid: int, cap: int, now: Time)
    | OpMark(id: JobId, mark: Mark, now: Time)
    | OpClaim(id: JobId, client: string, maxConcurrent: int, now: Time)
    | OpPoll(id: JobId, prev: Time, lease: Time, now: Time)
    | OpReschedule(id: JobId, at: Time, now: Time)
    | OpDelete(ids: set<JobId>)
    | OpAttempt(id: JobId, recorded: nat, deliveredAt: Option<Time>, next: Option<Time>)

  function Apply(db: Db, op: Op): Db {
    match op
    case OpCreate(id, req, rowid, cap, now) => Create(db, id, req, rowid, cap, now)
    case OpMark(id, m, now) => Transition(db, id, m, now)
    case OpClaim(id, client, max, now) => ClaimReceived(db, id, client, max, now)
    case OpPoll(id, prev, lease, now) => ClaimPollTick(db, id, prev, lease, now)
    case OpReschedule(id, at, now) => ReschedulePoll(db, id, at, now)
    case OpDelete(ids) => Delete(db, ids)
    case OpAttempt(id, prev, d, n) => RecordAttempt(db, id, prev, d, n)
  }

  function Exec(db: Db, ops: seq<Op>): Db {
    if ops == [] then db else Apply(Exec(db, ops[..|ops| - 1]), ops[|ops| - 1])
  }

  // ----- The store invariant ----------------------------------------------

  /** Event i leaves the state its predecessor entered, and that state was not final. */
  ghost predicate Linked(log: seq<Event>, i: nat)
    requires 0 < i < |log|
  {
    log[i].from == Some(log[i - 1].to) && !IsTerminal(log[i - 1].to)
  }

  /** An unbroken path from acceptance to `state`. */
  ghost predicate Unbroken(log: seq<Event>, state: JobState) {
    && log != []
    && log[0].from == None && log[0].to == Received
    && (forall i :: 0 < i < |log| ==> Linked(log, i))
    && log[|log| - 1].to == state
  }

  /** How often the trail records received -> resolving. */
  function Claims(log: seq<Event>): nat {
    if log == [] then 0
    else
      var e := log[|log| - 1];
      Claims(log[..|log| - 1]) + (if e.from == Some(Received) && e.to == Resolving then 1 else 0)
  }

  /** What ties a row to its trail and to its delivery. */
  ghost predicate RowOk(j: Job, log: seq<Event>, d: Option<Delivery>) {
    && Unbroken(log, j.state)
    && j.attempts == Claims(log)
    && (d.Some? <==> IsTerminal(j.state) && j.req.callbackUrl != "")
    && (d.Some? ==> d.value.url == j.req.callbackUrl && d.value.event == j.state)
    && (InFlight(j.state) || IsTerminal(j.state) ==> j.nextAt == None)
    && (j.state == AwaitingTarget ==> j.nextAt.Some? && j.pollDeadline.Some?)
    && (IsTerminal(j.state) <==> j.completedAt.Some?)
  }

  function DeliveryOf(db: Db, id: JobId): Option<Delivery> {
    if id in db.deliveries then Some(db.deliveries[id]) else None
  }

  ghost predicate RowValid(db: Db, id: JobId) {
    id in db.jobs && RowOk(db.jobs[id], Log(db, id), DeliveryOf(db, id))
  }

  predicate SameKey(r: Request, q: Request) {
    r.key != "" && r.client == q.client && r.key == q.key
  }

  ghost predicate UniqueKeys(db: Db) {
    forall a, b | a in db.jobs && b in db.jobs && SameKey(db.jobs[a].req, db.jobs[b].req) :: a == b
  }

  ghost predicate Valid(db: Db) {
    && (forall id :: id in db.jobs ==> RowValid(db, id))
    && db.trail.Keys == db.jobs.Keys
    && db.deliveries.Keys <= db.jobs.Keys
    && UniqueKeys(db)
  }

  lemma ClaimsAppend(log: seq<Event>, e: Event)
    ensures Claims(log + [e]) == Claims(log) + (if e.from == Some(Received) && e.to == Resolving then 1 else 0)
  {
    assert (log + [e])[..|log|] == log;
  }

  lemma UnbrokenAppend(log: seq<Event>, s: JobState, to: JobState, now: Time)
    requires Unbroken(log, s) && !IsTerminal(s)
    ensures Unbroken(log + [Event(Some(s), to, now)], to)
  {
    var longer := log + [Event(Some(s), to, now)];
    forall i | 0 < i < |longer| ensures Linked(longer, i) {
      assert i < |log| ==> Linked(log, i);
    }
  }

  lemma MarkKeepsRow(j: Job, log: seq<Event>, m: Mark, now: Time)
    requires RowOk(j, log, None) && !IsTerminal(j.state) && Accepts(m, j.state)
    ensures RowOk(Marked(j, m, now), log + [Event(Some(j.state), Target(m), now)], Callback(j, Target(m), now))
  {
    UnbrokenAppend(log, j.state, Target(m), now);
    ClaimsAppend(log, Event(Some(j.state), Target(m), now));
  }

  lemma TransitionKeepsValid(db: Db, id: JobId, m: Mark, now: Time)
    requires Valid(db)
    ensures Valid(Transition(db, id, m, now))
  {
    if Judge(db, id, m) == Done {
      assert RowValid(db, id);
      TransitionRow(db, id, m, now);
      OneRowKeepsValid(db, Transition(db, id, m, now), id);
    }
  }

  /** A transition writes one row, its trail and its delivery. */
  ghost predicate OneRow(db: Db, db': Db, id: JobId) {
    && id in db.jobs && id in db'.jobs && db'.jobs[id].req == db.jobs[id].req
    && db'.jobs == db.jobs[id := db'.jobs[id]]
    && db'.trail == db.trail[id := Log(db', id)]
    && db'.deliveries.Keys <= db.deliveries.Keys + {id}
    && forall k | k in db.jobs && k != id :: DeliveryOf(db', k) == DeliveryOf(db, k)
  }

  lemma TransitionRow(db: Db, id: JobId, m: Mark, now: Time)
    requires RowValid(db, id) && Judge(db, id, m) == Done
    ensures OneRow(db, Transition(db, id, m, now), id) && RowValid(Transition(db, id, m, now), id)
  {
    MarkKeepsRow(db.jobs[id], Log(db, id), m, now);
  }

  /** A write confined to one row that keeps that row valid keeps the store valid. */
  lemma OneRowKeepsValid(db: Db, db': Db, id: JobId)
    requires Valid(db) && OneRow(db, db', id) && RowValid(db', id)
    ensures Valid(db')
  {
    forall k | k in db'.jobs ensures RowValid(db', k) {
      if k != id {
        assert RowValid(db, k);
        RowCarries(db, db', k);
      }
    }
    KeysStayUnique(db, db', id);
  }

  lemma KeysStayUnique(db: Db, db': Db, id: JobId)
    requires UniqueKeys(db) && OneRow(db, db', id)
    ensures UniqueKeys(db')
  {
    forall k | k in db'.jobs ensures k in db.jobs && db'.jobs[k].req == db.jobs[k].req { }
  }

  lemma RowCarries(db: Db, db': Db, k: JobId)
    requires RowValid(db, k) && k in db'.jobs && db'.jobs[k] == db.jobs[k]
    requires Log(db', k) == Log(db, k) && DeliveryOf(db', k) == DeliveryOf(db, k)
    ensures RowValid(db', k)
  {
  }

  lemma ClaimKeepsValid(db: Db, id: JobId, client: string, max: int, now: Time)
    requires Valid(db)
    ensures Valid(ClaimReceived(db, id, client, max, now))
  {
    if ClaimWins(db, id, client, max, now) {
      assert RowValid(db, id);
      ClaimRow(db, id, client, max, now);
      OneRowKeepsValid(db, ClaimReceived(db, id, client, max, now), id);
    }
  }

  lemma ClaimRow(db: Db, id: JobId, client: string, max: int, now: Time)
    requires RowValid(db, id) && ClaimWins(db, id, client, max, now)
    ensures var db' := ClaimReceived(db, id, client, max, now); OneRow(db, db', id) && RowValid(db', id)
  {
    UnbrokenAppend(Log(db, id), Received, Resolving, now);
    ClaimsAppend(Log(db, id), Event(Some(Received), Resolving, now));
  }

  lemma CreateKeepsValid(db: Db, id: JobId, req: Request, rowid: int, cap: int, now: Time)
    requires Valid(db)
    ensures Valid(Create(db, id, req, rowid, cap, now))
  {
    if CreateVerdict(db, id, req, cap) == Created {
      var db' := Create(db, id, req, rowid, cap, now);
      assert id !in db.deliveries;
      NewRow(db, id, req, rowid, cap, now);
      forall k | k in db'.jobs ensures RowValid(db', k) {
        if k != id { RowCarries(db, db', k); }
      }
      NewKey(db, id, req, rowid, cap, now);
    }
  }

  lemma NewRow(db: Db, id: JobId, req: Request, rowid: int, cap: int, now: Time)
    requires CreateVerdict(db, id, req, cap) == Created && id !in db.deliveries
    ensures RowValid(Create(db, id, req, rowid, cap, now), id)
  {
    assert Claims([Event(None, Received, now)]) == Claims([]);
  }

  lemma NewKey(db: Db, id: JobId, req: Request, rowid: int, cap: int, now: Time)
    requires UniqueKeys(db) && CreateVerdict(db, id, req, cap) == Created
    ensures UniqueKeys(Create(db, id, req, rowid, cap, now))
  {
    assert forall a | a in db.jobs :: a !in Keyed(db, req.client, req.key);
  }

  lemma DeleteKeepsValid(db: Db, ids: set<JobId>)
    requires Valid(db)
    ensures Valid(Delete(db, ids))
  {
    var db' := Delete(db, ids);
    forall k | k in db'.jobs ensures RowValid(db', k) { RowCarries(db, db', k); }
  }

  /** Every single write, with any arguments whatsoever, keeps the store invariant. */
  lemma ApplyKeepsValid(db: Db, op: Op)
    requires Valid(db)
    ensures Valid(Apply(db, op))
  {
    match op
    case OpMark(id, m, now) => TransitionKeepsValid(db, id, m, now);
    case OpClaim(id, client, max, now) => ClaimKeepsValid(db, id, client, max, now);
    case OpCreate(id, req, rowid, cap, now) => CreateKeepsValid(db, id, req, rowid, cap, now);
    case OpDelete(ids) => DeleteKeepsValid(db, ids);
    case OpPoll(id, prev, lease, now) => PollKeepsValid(db, id, prev, lease, now);
    case OpReschedule(id, at, now) =>
      if id in db.jobs && db.jobs[id].state == AwaitingTarget { RetimeKeepsValid(db, id, at, now); }
    case OpAttempt(id, prev, d, next) => AttemptKeepsValid(db, id, prev, d, next);
  }

  /** Moving the poll schedule of a waiting job: a poll claim or a reschedule. */
  lemma RetimeKeepsValid(db: Db, id: JobId, at: Time, now: Time)
    requires Valid(db) && id in db.jobs && db.jobs[id].state == AwaitingTarget
    ensures Valid(db.(jobs := db.jobs[id := db.jobs[id].(nextAt := Some(at), updatedAt := now)]))
  {
    assert RowValid(db, id);
    RetimedRow(db, id, at, now);
    OneRowKeepsValid(db, db.(jobs := db.jobs[id := db.jobs[id].(nextAt := Some(at), updatedAt := now)]), id);
  }

  lemma RetimedRow(db: Db, id: JobId, at: Time, now: Time)
    requires RowValid(db, id) && db.jobs[id].state == AwaitingTarget && id in db.trail
    ensures var db' := db.(jobs := db.jobs[id := db.jobs[id].(nextAt := Some(at), updatedAt := now)]);
            OneRow(db, db', id) && RowValid(db', id)
  {
    var db' := db.(jobs := db.jobs[id := db.jobs[id].(nextAt := Some(at), updatedAt := now)]);
    assert Log(db', id) == Log(db, id) && DeliveryOf(db', id) == DeliveryOf(db, id);
    assert db.trail == db.trail[id := Log(db, id)];
  }

  lemma PollKeepsValid(db: Db, id: JobId, prev: Time, lease: Time, now: Time)
    requires Valid(db)
    ensures Valid(ClaimPollTick(db, id, prev, lease, now))
  {
    if PollWins(db, id, prev) { RetimeKeepsValid(db, id, lease, now); }
  }

  lemma AttemptKeepsValid(db: Db, id: JobId, prev: nat, d: Option<Time>, next: Option<Time>)
    requires Valid(db)
    ensures Valid(RecordAttempt(db, id, prev, d, next))
  {
    var db' := RecordAttempt(db, id, prev, d, next);
    if id in db.deliveries && db.deliveries[id].attempts == prev {
      forall k | k in db'.jobs ensures RowValid(db', k) {
        assert RowValid(db, k) && Log(db', k) == Log(db, k);
      }
    }
  }

  /** The store invariant holds after every run of writes, in every interleaving. */
  lemma {:induction false} RunsKeepValid(db: Db, ops: seq<Op>)
    requires Valid(db)
    ensures Valid(Exec(db, ops))
  {
    if ops != [] {
      RunsKeepValid(db, ops[..|ops| - 1]);
      ApplyKeepsValid(Exec(db, ops[..|ops| - 1]), ops[|ops| - 1]);
    }
  }

  // ----- Final states are final, requests are immutable --------------------

  /** One write leaves a finished row and its trail alone, unless it deletes them. */
  lemma ApplyKeepsFinal(db: Db, op: Op, id: JobId)
    requires id in db.jobs
    ensures var db' := Apply(db, op);
            id in db'.jobs ==>
              && db'.jobs[id].req == db.jobs[id].req
              && (IsTerminal(db.jobs[id].state) ==> db'.jobs[id] == db.jobs[id] && Log(db', id) == Log(db, id))
  {
    match op
    case OpMark(_, _, _) =>
    case OpCreate(_, _, _, _, _) =>
    case OpClaim(_, _, _, _) =>
    case _ =>
  }

  ghost predicate Survives(db: Db, ops: seq<Op>, id: JobId) {
    forall k :: 0 <= k <= |ops| ==> id in Exec(db, ops[..k]).jobs
  }

  lemma SurvivesPrefix(db: Db, ops: seq<Op>, id: JobId)
    requires ops != [] && Survives(db, ops, id)
    ensures Survives(db, ops[..|ops| - 1], id)
  {
    var shorter := ops[..|ops| - 1];
    forall k | 0 <= k <= |shorter| ensures id in Exec(db, shorter[..k]).jobs {
      assert shorter[..k] == ops[..k];
    }
  }

  /** Over any run in which the row is not deleted: the request never changes, and a
      finished row and its trail stay exactly as they are. */
  lemma {:induction false} FinalIsFinal(db: Db, ops: seq<Op>, id: JobId)
    requires Valid(db) && Survives(db, ops, id)
    ensures id in db.jobs && id in Exec(db, ops).jobs
    ensures Exec(db, ops).jobs[id].req == db.jobs[id].req
    ensures IsTerminal(db.jobs[id].state) ==>
              Exec(db, ops).jobs[id] == db.jobs[id] && Log(Exec(db, ops), id) == Log(db, id)
  {
    assert ops[..0] == [] && ops[..|ops|] == ops;
    assert id in Exec(db, ops[..0]).jobs && id in Exec(db, ops[..|ops|]).jobs;
    if ops != [] {
      var shorter := ops[..|ops| - 1];
      SurvivesPrefix(db, ops, id);
      FinalIsFinal(db, shorter, id);
      RunsKeepValid(db, shorter);
      RunsKeepValid(db, ops);
      ApplyKeepsFinal(Exec(db, shorter), ops[|ops| - 1], id);
    }
  }
}
