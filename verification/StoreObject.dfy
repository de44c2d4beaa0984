/**
 The store as the program has it: an object whose methods change the tables in place.
 Each method is proved against the corresponding function on the tables.
 */
module StoreObject {
  import opened Wrappers
  import opened JobTable
  import opened ClaimOrder

  /** How a claim schedules: per-client ceilings, if any key sets one, and the poll lease. */
  datatype Policy = Policy(ceilings: Option<string -> int>, lease: string -> nat) {
    function Ceiling(client: string): int {
      if ceilings.None? then 0 else ceilings.value(client)
    }
  }

  const DELETE_CHUNK := 500

  // ----- What a claim can find --------------------------------------------------

  predicate AtCeiling(db: Db, p: Policy, client: string) {
    p.Ceiling(client) > 0 && |Holding(db, client)| >= p.Ceiling(client)
  }

  /** Due received jobs whose attempts are used up. */
  function Exhausted(db: Db, now: Time): set<JobId> {
    set id | id in db.jobs && db.jobs[id].state == Received && Due(db.jobs[id].nextAt, now)
             && db.jobs[id].attempts >= db.jobs[id].req.maxAttempts
  }

  /** Clients at their ceiling that have a due received job. */
  function Capped(db: Db, p: Policy, now: Time): set<string> {
    set id | id in db.jobs && db.jobs[id].state == Received && Due(db.jobs[id].nextAt, now)
             && AtCeiling(db, p, db.jobs[id].req.client) :: db.jobs[id].req.client
  }

  /** Work a claim ought to find: a due job of a client under its ceiling that is a poll tick
      or has attempts left. */
  predicate Claimable(db: Db, p: Policy, now: Time, id: JobId) {
    && id in db.jobs && Eligible(db.jobs[id], now) && id !in Exhausted(db, now)
    && !AtCeiling(db, p, db.jobs[id].req.client)
  }

  // ----- One transition on many rows ---------------------------------------------------

  /** The tables after the same transition of every row in ids, in any order. */
  ghost function MarkAll(db: Db, ids: set<JobId>, m: Mark, now: Time): Db
    decreases |ids|
  {
    if ids == {} then db
    else
      var id :| id in ids;
      Transition(MarkAll(db, ids - {id}, m, now), id, m, now)
  }

  /** Some row's transition comes last. */
  lemma LastMarked(db: Db, ids: set<JobId>, m: Mark, now: Time) returns (id: JobId)
    requires ids != {}
    ensures id in ids && MarkAll(db, ids, m, now) == Transition(MarkAll(db, ids - {id}, m, now), id, m, now)
  {
    id :| id in ids && MarkAll(db, ids, m, now) == Transition(MarkAll(db, ids - {id}, m, now), id, m, now);
  }

  /** Row, trail and delivery of one job are the same in both. */
  predicate Alike(db: Db, db': Db, k: JobId) {
    && (k in db.jobs <==> k in db'.jobs) && (k in db.jobs ==> db'.jobs[k] == db.jobs[k])
    && Log(db', k) == Log(db, k) && DeliveryOf(db', k) == DeliveryOf(db, k)
  }

  lemma TransitionElsewhere(db: Db, id: JobId, m: Mark, now: Time, k: JobId)
    requires k != id
    ensures Alike(db, Transition(db, id, m, now), k) && (k in Transition(db, id, m, now).trail <==> k in db.trail)
  {
  }

  /** Transitions of different rows commute. */
  lemma TransitionsCommute(db: Db, a: JobId, b: JobId, m: Mark, now: Time, dbA: Db, dbB: Db)
    requires a != b && dbA == Transition(db, a, m, now) && dbB == Transition(db, b, m, now)
    ensures Transition(dbA, b, m, now) == Transition(dbB, a, m, now)
  {
    TransitionElsewhere(db, a, m, now, b);
    TransitionElsewhere(db, b, m, now, a);
    if Judge(db, a, m) == Done && Judge(db, b, m) == Done { BothDone(db, a, b, m, now, dbA, dbB); }
  }

  lemma BothDone(db: Db, a: JobId, b: JobId, m: Mark, now: Time, dbA: Db, dbB: Db)
    requires a != b && dbA == Transition(db, a, m, now) && dbB == Transition(db, b, m, now)
    requires Judge(db, a, m) == Done && Judge(db, b, m) == Done && Judge(dbA, b, m) == Done && Judge(dbB, a, m) == Done
    requires Alike(db, dbA, b) && Alike(db, dbB, a)
    ensures Transition(dbA, b, m, now) == Transition(dbB, a, m, now)
  {
    var rowA, rowB := Marked(db.jobs[a], m, now), Marked(db.jobs[b], m, now);
    Swapped(db.jobs, a, rowA, b, rowB);
    Swapped(db.trail, a, Logged(db, a, m, now), b, Logged(db, b, m, now));
    CallbacksCommute(db, a, b, m, now);
  }

  /** The trail of id after one transition more. */
  function Logged(db: Db, id: JobId, m: Mark, now: Time): seq<Event>
    requires id in db.jobs
  {
    Log(db, id) + [Event(Some(db.jobs[id].state), Target(m), now)]
  }

  lemma Swapped<K, V>(t: map<K, V>, a: K, x: V, b: K, y: V)
    requires a != b
    ensures t[a := x][b := y] == t[b := y][a := x]
  {
  }

  function Called(deliveries: map<JobId, Delivery>, id: JobId, d: Option<Delivery>): map<JobId, Delivery> {
    match d
    case Some(c) => deliveries[id := c]
    case None => deliveries
  }

  lemma CallbacksCommute(db: Db, a: JobId, b: JobId, m: Mark, now: Time)
    requires a != b && a in db.jobs && b in db.jobs
    ensures var callA, callB := Callback(db.jobs[a], Target(m), now), Callback(db.jobs[b], Target(m), now);
            Called(Called(db.deliveries, a, callA), b, callB) == Called(Called(db.deliveries, b, callB), a, callA)
  {
    var callA, callB := Callback(db.jobs[a], Target(m), now), Callback(db.jobs[b], Target(m), now);
    if callA.Some? && callB.Some? { Swapped(db.deliveries, a, callA.value, b, callB.value); }
  }

  /** One more transition. */
  lemma {:induction false} MarkOneMore(db: Db, ids: set<JobId>, id: JobId, m: Mark, now: Time)
    requires id !in ids
    ensures MarkAll(db, ids + {id}, m, now) == Transition(MarkAll(db, ids, m, now), id, m, now)
    decreases |ids|
  {
    var all := ids + {id};
    var pick := LastMarked(db, all, m, now);
    if pick == id {
      assert all - {id} == ids;
    } else {
      var rest := ids - {pick};
      assert all - {pick} == rest + {id} && rest + {pick} == ids;
      MarkOneMore(db, rest, id, m, now);
      MarkOneMore(db, rest, pick, m, now);
      TransitionsCommute(MarkAll(db, rest, m, now), id, pick, m, now,
                         MarkAll(db, all - {pick}, m, now), MarkAll(db, ids, m, now));
    }
  }

  /** Each row in ids makes its transition, the others stay as they are. */
  lemma {:induction false} MarkAllMeans(db: Db, ids: set<JobId>, m: Mark, now: Time, k: JobId)
    ensures MarkAll(db, ids, m, now).served == db.served && MarkAll(db, ids, m, now).jobs.Keys == db.jobs.Keys
    ensures Alike(if k in ids then Transition(db, k, m, now) else db, MarkAll(db, ids, m, now), k)
    decreases |ids|
  {
    if ids != {} {
      var pick := LastMarked(db, ids, m, now);
      var mid := MarkAll(db, ids - {pick}, m, now);
      MarkAllMeans(db, ids - {pick}, m, now, k);
      if k == pick { SameTransition(db, mid, k, m, now); } else { TransitionElsewhere(mid, pick, m, now, k); }
    }
  }

  lemma SameTransition(db: Db, db': Db, k: JobId, m: Mark, now: Time)
    requires Alike(db, db', k)
    ensures Alike(Transition(db, k, m, now), Transition(db', k, m, now), k)
  {
  }

  /** Many transitions keep the store invariant. */
  lemma {:induction false} MarkAllKeepsValid(db: Db, ids: set<JobId>, m: Mark, now: Time)
    requires Valid(db)
    ensures Valid(MarkAll(db, ids, m, now))
    decreases |ids|
  {
    if ids != {} {
      var pick := LastMarked(db, ids, m, now);
      MarkAllKeepsValid(db, ids - {pick}, m, now);
      TransitionKeepsValid(MarkAll(db, ids - {pick}, m, now), pick, m, now);
    }
  }

  // ----- What a claim does besides claiming ------------------------------------------------

  /** The exhausted jobs a claim has failed so far. */
  function FailedNow(db: Db, db': Db, now: Time): set<JobId> {
    set id | id in Exhausted(db, now) && id in db'.jobs && db'.jobs[id].state == Failed
  }

  /** Exhausted jobs were failed, each with its event and its callback, and nothing else was written. */
  ghost predicate OnlyExhaustedFailed(db: Db, db': Db, now: Time) {
    && db' == MarkAll(db, FailedNow(db, db', now), FailExhausted, now)
    && RowsKept(db, db', now)
  }

  /** What that means for the rows. */
  ghost predicate RowsKept(db: Db, db': Db, now: Time) {
    && db'.jobs.Keys == db.jobs.Keys && db'.served == db.served
    && (forall id | id in db.jobs :: db'.jobs[id] == db.jobs[id] ||
          (id in Exhausted(db, now) && db'.jobs[id] == Marked(db.jobs[id], FailExhausted, now)))
  }

  lemma NothingFailed(db: Db, now: Time)
    ensures OnlyExhaustedFailed(db, db, now)
  {
    assert FailedNow(db, db, now) == {};
  }

  lemma FailuresKeepValid(db: Db, db': Db, now: Time)
    requires Valid(db) && OnlyExhaustedFailed(db, db', now)
    ensures Valid(db')
  {
    MarkAllKeepsValid(db, FailedNow(db, db', now), FailExhausted, now);
  }

  lemma HoldingKept(db: Db, db': Db, now: Time, client: string)
    requires OnlyExhaustedFailed(db, db', now)
    ensures Holding(db', client) == Holding(db, client)
  {
  }

  /** Failing one more exhausted job. */
  lemma FailOneMore(db: Db, mid: Db, id: JobId, now: Time)
    requires OnlyExhaustedFailed(db, mid, now)
    requires id in Exhausted(db, now) && id in mid.jobs && mid.jobs[id] == db.jobs[id]
    ensures var db' := Transition(mid, id, FailExhausted, now);
            && OnlyExhaustedFailed(db, db', now)
            && |FailedNow(db, db', now)| == |FailedNow(db, mid, now)| + 1
            && id in FailedNow(db, db', now) && FailedNow(db, mid, now) <= FailedNow(db, db', now)
            && db'.jobs == mid.jobs[id := db'.jobs[id]]
  {
    var db' := Transition(mid, id, FailExhausted, now);
    FailedRow(mid, id, now);
    FailedGrows(db, mid, db', id, now);
    RowsKeptNext(db, mid, db', id, now);
    MarkOneMore(db, FailedNow(db, mid, now), id, FailExhausted, now);
  }

  lemma RowsKeptNext(db: Db, mid: Db, db': Db, id: JobId, now: Time)
    requires RowsKept(db, mid, now) && id in Exhausted(db, now) && mid.jobs.Keys == db.jobs.Keys
    requires db'.jobs == mid.jobs[id := Marked(db.jobs[id], FailExhausted, now)] && db'.served == mid.served
    ensures RowsKept(db, db', now)
  {
  }

  lemma FailedRow(db: Db, id: JobId, now: Time)
    requires id in db.jobs && db.jobs[id].state == Received
    ensures var db' := Transition(db, id, FailExhausted, now);
            db'.jobs == db.jobs[id := Marked(db.jobs[id], FailExhausted, now)] && db'.served == db.served
  {
  }

  lemma FailedGrows(db: Db, mid: Db, db': Db, id: JobId, now: Time)
    requires id in Exhausted(db, now) && id in mid.jobs && mid.jobs[id].state == Received
    requires id in db'.jobs && db'.jobs[id].state == Failed && db'.jobs == mid.jobs[id := db'.jobs[id]]
    ensures FailedNow(db, db', now) == FailedNow(db, mid, now) + {id}
    ensures |FailedNow(db, db', now)| == |FailedNow(db, mid, now)| + 1
  {
    assert FailedNow(db, db', now) == FailedNow(db, mid, now) + {id};
  }

  /** The write of a won claim. */
  function ClaimOp(db: Db, p: Policy, now: Time, id: JobId): Op
    requires id in db.jobs
  {
    var j := db.jobs[id];
    if j.state == AwaitingTarget && j.nextAt.Some?
    then OpPoll(id, j.nextAt.value, now + p.lease(j.req.target), now)
    else OpClaim(id, j.req.client, p.Ceiling(j.req.client), now)
  }

  function ClaimEffect(db: Db, p: Policy, now: Time, id: JobId): Db
    requires id in db.jobs
  {
    Apply(db, ClaimOp(db, p, now, id))
  }

  predicate Wins(db: Db, p: Policy, now: Time, id: JobId) {
    && id in db.jobs
    && var j := db.jobs[id];
       if j.state == AwaitingTarget && j.nextAt.Some? then PollWins(db, id, j.nextAt.value)
       else ClaimWins(db, id, j.req.client, p.Ceiling(j.req.client), now)
  }

  /** One query's candidates tried up to the i-th, none claimed: the rest are untouched, and
      each one tried was held back by a ceiling or failed as exhausted. */
  ghost predicate Scanned(start: Db, queried: Db, cur: Db, p: Policy, now: Time, excluded: set<string>,
                          cands: seq<JobId>, i: nat, capped: set<string>) {
    && i <= |cands| && OnlyExhaustedFailed(start, cur, now)
    && RestOriginal(start, cur, now, excluded, cands, i)
    && (forall k | 0 <= k < i :: !Claimable(start, p, now, cands[k]))
    && Tallied(start, queried, cur, p, now, excluded, i, capped)
  }

  ghost predicate RestOriginal(start: Db, cur: Db, now: Time, excluded: set<string>, cands: seq<JobId>, i: nat) {
    forall k | i <= k < |cands| :: Original(start, cur, now, excluded, cands[k])
  }

  /** Clients set aside and jobs failed account for the candidates tried. */
  ghost predicate Tallied(start: Db, queried: Db, cur: Db, p: Policy, now: Time, excluded: set<string>, i: nat,
                          capped: set<string>) {
    && capped <= Capped(start, p, now) && capped !! excluded
    && |FailedNow(start, queried, now)| <= |FailedNow(start, cur, now)|
    && (capped == {} ==> |FailedNow(start, cur, now)| == |FailedNow(start, queried, now)| + i)
    && (Capped(start, p, now) == {} && Exhausted(start, now) == {} ==> i == 0 && cur == queried)
  }

  /** Row `id` is as it was when the claim began, due, and of a client not set aside. */
  predicate Original(start: Db, cur: Db, now: Time, excluded: set<string>, id: JobId) {
    && id in start.jobs && id in cur.jobs && cur.jobs[id] == start.jobs[id]
    && Eligible(start.jobs[id], now) && start.jobs[id].req.client !in excluded
  }

  /** Row `id`, untouched until then and held back by nothing, was claimed in `before`. */
  ghost predicate ClaimedFrom(start: Db, before: Db, after: Db, p: Policy, now: Time, excluded: set<string>,
                              id: JobId) {
    && Original(start, before, now, excluded, id) && id !in Exhausted(start, now)
    && (start.jobs[id].state == Received ==> !AtCeiling(start, p, start.jobs[id].req.client))
    && Wins(before, p, now, id) && after == ClaimEffect(before, p, now, id)
  }

  lemma ScanStarts(start: Db, queried: Db, p: Policy, now: Time, excluded: set<string>, cands: seq<JobId>)
    requires OnlyExhaustedFailed(start, queried, now) && IsBatch(queried, now, excluded, cands)
    ensures Scanned(start, queried, queried, p, now, excluded, cands, 0, {})
  {
    var rows := Rows(queried, now, excluded);
    forall k | 0 <= k < |cands| ensures Original(start, queried, now, excluded, cands[k]) {
      assert First(queried, rows, rows - Elems(cands[..k]), cands[k]);
      CandidateIsOriginal(start, queried, now, excluded, cands[k]);
    }
  }

  lemma NextIsOriginal(start: Db, queried: Db, cur: Db, p: Policy, now: Time, excluded: set<string>,
                       cands: seq<JobId>, i: nat, capped: set<string>)
    requires i < |cands| && Scanned(start, queried, cur, p, now, excluded, cands, i, capped)
    ensures Original(start, cur, now, excluded, cands[i])
  {
  }

  lemma ScanSetsAside(start: Db, queried: Db, cur: Db, p: Policy, now: Time, excluded: set<string>,
                      cands: seq<JobId>, i: nat, capped: set<string>)
    requires i < |cands| && Scanned(start, queried, cur, p, now, excluded, cands, i, capped)
    requires start.jobs[cands[i]].state == Received && AtCeiling(start, p, start.jobs[cands[i]].req.client)
    ensures Scanned(start, queried, cur, p, now, excluded, cands, i + 1, capped + {start.jobs[cands[i]].req.client})
  {
    assert Original(start, cur, now, excluded, cands[i]);
    assert start.jobs[cands[i]].req.client in Capped(start, p, now);
  }

  lemma ScanFails(start: Db, queried: Db, cur: Db, next: Db, p: Policy, now: Time, excluded: set<string>,
                  cands: seq<JobId>, i: nat, capped: set<string>)
    requires i < |cands| && Scanned(start, queried, cur, p, now, excluded, cands, i, capped)
    requires cands[i] in Exhausted(start, now) && OnlyExhaustedFailed(start, next, now)
    requires |FailedNow(start, next, now)| == |FailedNow(start, cur, now)| + 1
    requires cands[i] in next.jobs && next.jobs == cur.jobs[cands[i] := next.jobs[cands[i]]]
    requires forall k | i < k < |cands| :: cands[k] != cands[i]
    ensures Scanned(start, queried, next, p, now, excluded, cands, i + 1, capped)
  {
    RestStaysOriginal(start, cur, next, now, excluded, cands, i);
  }

  lemma ScanGoesOn(start: Db, queried: Db, cur: Db, next: Db, p: Policy, now: Time, excluded: set<string>,
                   cands: seq<JobId>, i: nat, capped: set<string>)
    requires i < |cands| && Scanned(start, queried, cur, p, now, excluded, cands, i, capped)
    requires IsBatch(queried, now, excluded, cands)
    requires cands[i] in Exhausted(start, now) && OnlyExhaustedFailed(start, next, now)
    requires |FailedNow(start, next, now)| == |FailedNow(start, cur, now)| + 1
    requires cands[i] in next.jobs && next.jobs == cur.jobs[cands[i] := next.jobs[cands[i]]]
    ensures Scanned(start, queried, next, p, now, excluded, cands, i + 1, capped)
  {
    LaterCandidatesDiffer(queried, now, excluded, cands, i);
    ScanFails(start, queried, cur, next, p, now, excluded, cands, i, capped);
  }

  lemma RestStaysOriginal(start: Db, cur: Db, next: Db, now: Time, excluded: set<string>, cands: seq<JobId>, i: nat)
    requires i < |cands| && RestOriginal(start, cur, now, excluded, cands, i)
    requires cands[i] in next.jobs && next.jobs == cur.jobs[cands[i] := next.jobs[cands[i]]]
    requires forall k | i < k < |cands| :: cands[k] != cands[i]
    ensures RestOriginal(start, next, now, excluded, cands, i + 1)
  {
    forall k | i + 1 <= k < |cands| ensures Original(start, next, now, excluded, cands[k]) {
      assert Original(start, cur, now, excluded, cands[k]);
    }
  }

  /** What is left to claim, given what was already failed and who was set aside. */
  ghost predicate Progress(db: Db, cur: Db, p: Policy, now: Time, excluded: set<string>, rounds: nat) {
    && OnlyExhaustedFailed(db, cur, now)
    && excluded <= Capped(db, p, now)
    && 8 * rounds <= 8 * |excluded| + |FailedNow(db, cur, now)|
  }

  /** A candidate of a later query is a row the claim has not touched. */
  lemma CandidateIsOriginal(db: Db, cur: Db, now: Time, excluded: set<string>, id: JobId)
    requires OnlyExhaustedFailed(db, cur, now) && id in Rows(cur, now, excluded)
    ensures id in db.jobs && cur.jobs[id] == db.jobs[id] && db.jobs[id].req.client !in excluded
  {
  }

  /** After a full batch without a claim, either a client was set aside or eight jobs were failed. */
  lemma RoundCounts(excluded: set<string>, capped: set<string>, before: nat, after: nat, rounds: nat)
    requires excluded !! capped && 8 * rounds <= 8 * |excluded| + before && before <= after
    requires capped == {} ==> after == before + 8
    ensures 8 * (rounds + 1) <= 8 * |excluded + capped| + after
  {
    if capped == {} { assert excluded + capped == excluded; }
    else {
      assert |excluded + capped| == |excluded| + |capped|;
      assert |capped| >= 1;
    }
  }

  /** Eight full rounds need that many capped clients and exhausted jobs. */
  lemma RoundsRunOut(db: Db, cur: Db, p: Policy, now: Time, excluded: set<string>)
    requires Progress(db, cur, p, now, excluded, CLAIM_ROUNDS)
    ensures |Capped(db, p, now)| + |Exhausted(db, now)| / 8 >= 8
  {
    SubsetSize(excluded, Capped(db, p, now));
    SubsetSize(FailedNow(db, cur, now), Exhausted(db, now));
  }

  lemma NextChunk(ids: seq<JobId>, start: nat, end: nat)
    requires start <= end <= |ids|
    ensures Elems(ids[..end]) == Elems(ids[..start]) + Elems(ids[start..end])
  {
    assert ids[..end] == ids[..start] + ids[start..end];
  }

  lemma DeleteMore(db: Db, a: set<JobId>, b: set<JobId>)
    ensures Delete(Delete(db, a), b) == Delete(db, a + b)
  {
    assert db.jobs - a - b == db.jobs - (a + b);
    assert db.trail - a - b == db.trail - (a + b);
    assert db.deliveries - a - b == db.deliveries - (a + b);
  }

  /** Jobs in flight whose last write lies before their target's cutoff. */
  function Abandoned(db: Db, cutoff: string -> Time): (ids: set<JobId>)
    ensures ids <= db.jobs.Keys
  {
    set id | id in db.jobs && InFlight(db.jobs[id].state) && db.jobs[id].updatedAt < cutoff(db.jobs[id].req.target)
  }

  /** A claim after some exhausted jobs were failed. */
  lemma ClaimKeeps(start: Db, mid: Db, p: Policy, now: Time, id: JobId, db': Db)
    requires Valid(start) && OnlyExhaustedFailed(start, mid, now)
             && id in mid.jobs && db' == ClaimEffect(mid, p, now, id)
    ensures Valid(db')
  {
    FailuresKeepValid(start, mid, now);
    ApplyKeepsValid(mid, ClaimOp(mid, p, now, id));
  }

  // ----- What later reads see ---------------------------------------------------------------

  /** The row is found by the candidate query from this time on and not before. */
  ghost predicate EligibleFrom(j: Job, at: Time) {
    forall t :: Eligible(j, t) <==> at <= t
  }

  ghost predicate NeverEligible(j: Job) {
    forall t :: !Eligible(j, t)
  }

  ghost predicate AlwaysEligible(j: Job) {
    forall t :: Eligible(j, t)
  }

  /** Who asked for what and when, and how often it was tried, stay. */
  predicate SameJob(j: Job, k: Job) {
    k.req == j.req && k.createdAt == j.createdAt && k.rowid == j.rowid && k.attempts == j.attempts
  }

  predicate SameTarget(j: Job, k: Job) {
    k.targetJobId == j.targetJobId && k.pollDeadline == j.pollDeadline
  }

  predicate Unfinished(j: Job, k: Job) {
    k.outcome == j.outcome && k.completedAt == j.completedAt
  }

  /** The job ended: no query finds it any more. */
  ghost predicate Ended(k: Job, state: JobState, outcome: string, now: Time) {
    k.state == state && k.outcome == outcome && k.completedAt == Some(now) && NeverEligible(k)
  }

  /** What a mark leaves behind: what it names, found by later reads as it says, and every other column as it was. */
  ghost predicate Shows(j: Job, m: Mark, now: Time, k: Job) {
    && SameJob(j, k) && k.updatedAt == now
    && (!m.SetResolved? ==> k.resolved == j.resolved)
    && (!m.MarkAwaitingTarget? ==> SameTarget(j, k))
    && match m
       case SetResolved(payload) =>
         && k.state == Forwarding && k.resolved == Some(payload) && NeverEligible(k)
         && k.nextAt == j.nextAt && Unfinished(j, k)
       case MarkAwaitingTarget(target, first, deadline) =>
         && k.state == AwaitingTarget && EligibleFrom(k, first)
         && k.targetJobId == target && k.pollDeadline == Some(deadline) && Unfinished(j, k)
       case MarkCompleted(result) => Ended(k, Completed, result, now)
       case MarkFailed(code) => Ended(k, Failed, code, now)
       case MarkCancelled => Ended(k, Cancelled, j.outcome, now)
       case FailExhausted => Ended(k, Failed, "max_attempts_exceeded", now)
       case Requeue(at) => k.state == Received && EligibleFrom(k, at) && Unfinished(j, k)
       case RequeueNow => k.state == Received && AlwaysEligible(k) && Unfinished(j, k)
  }

  /** From which states a mark is made. */
  predicate MayMark(m: Mark, s: JobState) {
    match m
    case SetResolved(_) => s == Resolving
    case MarkAwaitingTarget(_, _, _) => s == Forwarding
    case MarkCancelled => s == Received || s == AwaitingTarget
    case FailExhausted => s == Received
    case _ => s == Received || s == Resolving || s == Forwarding || s == AwaitingTarget
  }

  /** One row shows the mark, its trail has one event more, and a finished job's callback is due at once. */
  ghost predicate Recorded(db: Db, db': Db, id: JobId, m: Mark, now: Time) {
    && id in db.jobs && id in db'.jobs && id in db'.trail
    && var j, k := db.jobs[id], db'.jobs[id];
    && Shows(j, m, now, k) && db'.jobs == db.jobs[id := k] && db'.served == db.served
    && db'.trail == db.trail[id := Log(db, id) + [Event(Some(j.state), k.state, now)]]
    && db'.deliveries == if Finishes(m) && j.req.callbackUrl != ""
                         then db.deliveries[id := Delivery(j.req.callbackUrl, k.state, 0, Some(now), None)]
                         else db.deliveries
  }

  predicate Finishes(m: Mark) {
    m.MarkCompleted? || m.MarkFailed? || m.MarkCancelled? || m.FailExhausted?
  }

  lemma MarkShows(j: Job, m: Mark, now: Time)
    ensures !IsTerminal(j.state) && Accepts(m, j.state) <==> MayMark(m, j.state)
    ensures MayMark(m, j.state) ==> Shows(j, m, now, Marked(j, m, now))
  {
  }

  lemma MarkIsRecorded(db: Db, id: JobId, m: Mark, now: Time)
    ensures Judge(db, id, m) == Done <==> id in db.jobs && MayMark(m, db.jobs[id].state)
    ensures Judge(db, id, m) == Done ==> Recorded(db, Transition(db, id, m, now), id, m, now)
  {
    if id in db.jobs { MarkShows(db.jobs[id], m, now); }
  }

  /** A new row: nothing tried, nothing known, to be claimed at once or from the time its request names. */
  ghost predicate Fresh(req: Request, rowid: int, now: Time, k: Job) {
    && k.req == req && k.createdAt == now && k.rowid == rowid && k.updatedAt == now
    && k.state == Received && k.attempts == 0 && k.resolved.None? && k.outcome == "" && k.completedAt.None?
    && k.targetJobId == "" && k.pollDeadline.None?
    && match req.notBefore
       case None => AlwaysEligible(k)
       case Some(at) => EligibleFrom(k, at)
  }

  /** A claim starts an attempt: no query finds the job until the attempt is over. */
  ghost predicate Started(j: Job, now: Time, k: Job) {
    && k.req == j.req && k.createdAt == j.createdAt && k.rowid == j.rowid && k.updatedAt == now
    && k.state == Resolving && k.attempts == j.attempts + 1 && NeverEligible(k)
    && k.resolved == j.resolved && SameTarget(j, k) && Unfinished(j, k)
  }

  /** A poll claim hides the job until its lease is over. */
  ghost predicate Leased(j: Job, lease: Time, now: Time, k: Job) {
    && SameJob(j, k) && k.updatedAt == now && k.state == AwaitingTarget && EligibleFrom(k, lease)
    && k.resolved == j.resolved && SameTarget(j, k) && Unfinished(j, k)
  }

  /** Jobs in flight that were not written since their target's cutoff are back in the queue; no other changed. */
  ghost predicate Rescued(was: map<JobId, Job>, jobs: map<JobId, Job>, cutoff: string -> Time, now: Time) {
    && jobs.Keys == was.Keys
    && forall k | k in jobs ::
         if (was[k].state == Resolving || was[k].state == Forwarding) && was[k].updatedAt < cutoff(was[k].req.target)
         then Shows(was[k], RequeueNow, now, jobs[k])
         else jobs[k] == was[k]
  }

  lemma AbandonedAreRescued(db: Db, cutoff: string -> Time, now: Time)
    ensures Rescued(db.jobs, MarkAll(db, Abandoned(db, cutoff), RequeueNow, now).jobs, cutoff, now)
  {
    var ids := Abandoned(db, cutoff);
    MarkAllMeans(db, ids, RequeueNow, now, "");
    forall k | k in db.jobs
      ensures MarkAll(db, ids, RequeueNow, now).jobs[k] ==
              if k in ids then Marked(db.jobs[k], RequeueNow, now) else db.jobs[k]
    {
      MarkAllMeans(db, ids, RequeueNow, now, k);
    }
    forall k | k in ids ensures Shows(db.jobs[k], RequeueNow, now, Marked(db.jobs[k], RequeueNow, now)) {
      MarkShows(db.jobs[k], RequeueNow, now);
    }
  }

  lemma KeyedMeans(db: Db, req: Request)
    ensures Keyed(db, req.client, req.key) != {} <==> exists o | o in db.jobs :: SameKey(req, db.jobs[o].req)
  {
    forall o | o in db.jobs ensures o in Keyed(db, req.client, req.key) <==> SameKey(req, db.jobs[o].req) { }
  }

  class Store {
    var jobs: map<JobId, Job>
    var trail: map<JobId, seq<Event>>
    var deliveries: map<JobId, Delivery>
    var served: map<string, Time>

    function View(): Db
      reads this
    {
      Db(jobs, trail, deliveries, served)
    }

    constructor ()
      ensures View() == EMPTY
    {
      jobs, trail, deliveries, served := map[], map[], map[], map[];
    }

    /** One insert attempt. */
    method CreateJobOnce(id: JobId, req: Request, rowid: int, cap: int, now: Time) returns (verdict: Creation)
      modifies this
      ensures verdict == CreateVerdict(old(View()), id, req, cap)
      ensures View() == Create(old(View()), id, req, rowid, cap, now)
      ensures verdict == MustReplay <==> exists o | o in old(jobs) :: SameKey(req, old(jobs)[o].req)
      ensures verdict != Created ==> View() == old(View())
      ensures verdict == Created ==>
                && id !in old(jobs) && id in jobs && Fresh(req, rowid, now, jobs[id])
                && jobs == old(jobs)[id := jobs[id]] && trail == old(trail)[id := [Event(None, Received, now)]]
                && deliveries == old(deliveries) && served == old(served)
    {
      KeyedMeans(View(), req);
      if cap > 0 {
        if Keyed(View(), req.client, req.key) != {} { return MustReplay; }
        if |Queued(View(), req.client)| >= cap { return QueueFull; }
      }
      if Keyed(View(), req.client, req.key) != {} { return MustReplay; }
      if id in jobs { return DuplicateId; }
      jobs := jobs[id := NewJob(req, rowid, now)];
      trail := trail[id := [Event(None, Received, now)]];
      verdict := Created;
    }

    /** The writes of a transition: the row, its audit event and, once the job is finished, its callback. */
    method WriteMark(id: JobId, m: Mark, now: Time)
      requires Judge(View(), id, m) == Done
      modifies this
      ensures View() == Transition(old(View()), id, m, now)
    {
      var j := jobs[id];
      jobs := jobs[id := Marked(j, m, now)];
      var log := if id in trail then trail[id] else [];
      trail := trail[id := log + [Event(Some(j.state), Target(m), now)]];
      if IsTerminal(Target(m)) && j.req.callbackUrl != "" {
        deliveries := deliveries[id := Delivery(j.req.callbackUrl, Target(m), 0, Some(now), None)];
      }
    }

    /** A state change, its audit event and its callback, all or nothing. */
    method ApplyMark(id: JobId, m: Mark, now: Time) returns (verdict: Verdict)
      modifies this
      ensures verdict == Judge(old(View()), id, m)
      ensures View() == Transition(old(View()), id, m, now)
      ensures verdict == Done <==> id in old(jobs) && MayMark(m, old(jobs)[id].state)
      ensures verdict != Done ==> View() == old(View())
      ensures verdict == Done ==> Recorded(old(View()), View(), id, m, now)
    {
      MarkIsRecorded(View(), id, m, now);
      if id !in jobs { return NotFound; }
      var j := jobs[id];
      if IsTerminal(j.state) { return AlreadyTerminal; }
      if !Accepts(m, j.state) { return Refused; }
      WriteMark(id, m, now);
      verdict := Done;
    }

    method ClaimReceivedJob(id: JobId, client: string, max: int, now: Time) returns (won: bool)
      modifies this
      ensures won == ClaimWins(old(View()), id, client, max, now)
      ensures View() == ClaimReceived(old(View()), id, client, max, now)
      ensures won ==> id in old(jobs) && old(jobs)[id].state == Received && Eligible(old(jobs)[id], now)
      ensures !won ==> View() == old(View())
      ensures won ==>
                && id in jobs && Started(old(jobs)[id], now, jobs[id]) && jobs == old(jobs)[id := jobs[id]]
                && trail == old(trail)[id := Log(old(View()), id) + [Event(Some(Received), Resolving, now)]]
                && served == old(served)[client := now] && deliveries == old(deliveries)
    {
      if !(id in jobs && jobs[id].state == Received && Due(jobs[id].nextAt, now)) { return false; }
      if max > 0 && |Holding(View(), client)| >= max { return false; }
      var j := jobs[id];
      jobs := jobs[id := j.(state := Resolving, attempts := j.attempts + 1, nextAt := None, updatedAt := now)];
      served := served[client := now];
      var log := if id in trail then trail[id] else [];
      trail := trail[id := log + [Event(Some(Received), Resolving, now)]];
      won := true;
    }

    method ClaimTick(id: JobId, prev: Time, lease: Time, now: Time) returns (won: bool)
      modifies this
      ensures won == PollWins(old(View()), id, prev)
      ensures View() == ClaimPollTick(old(View()), id, prev, lease, now)
      ensures won ==> id in old(jobs) && EligibleFrom(old(jobs)[id], prev)
      ensures !won ==> View() == old(View())
      ensures won ==>
                && id in jobs && Leased(old(jobs)[id], lease, now, jobs[id]) && jobs == old(jobs)[id := jobs[id]]
                && trail == old(trail) && deliveries == old(deliveries) && served == old(served)
    {
      won := id in jobs && jobs[id].state == AwaitingTarget && jobs[id].nextAt == Some(prev);
      if won {
        jobs := jobs[id := jobs[id].(nextAt := Some(lease), updatedAt := now)];
      }
    }

    /** Removes jobs chunk by chunk; the chunks add up to one delete of all of them. */
    method DeleteJobs(ids: seq<JobId>)
      modifies this
      ensures View() == Delete(old(View()), Elems(ids))
    {
      var start := 0;
      while start < |ids|
        invariant 0 <= start <= |ids|
        invariant View() == Delete(old(View()), Elems(ids[..start]))
      {
        var end := if start + DELETE_CHUNK < |ids| then start + DELETE_CHUNK else |ids|;
        var chunk := Elems(ids[start..end]);
        NextChunk(ids, start, end);
        DeleteMore(old(View()), Elems(ids[..start]), chunk);
        jobs, trail, deliveries := jobs - chunk, trail - chunk, deliveries - chunk;
        start := end;
      }
      assert ids[..|ids|] == ids;
    }

    /** Requeues every job whose attempt was abandoned before its target's cutoff, and says how many. */
    method RescueStuck(cutoff: string -> Time, now: Time) returns (count: nat)
      modifies this
      ensures count == |Abandoned(old(View()), cutoff)|
      ensures View() == MarkAll(old(View()), Abandoned(old(View()), cutoff), RequeueNow, now)
      ensures Rescued(old(jobs), jobs, cutoff, now)
      ensures Valid(old(View())) ==> Valid(View())
    {
      ghost var start := View();
      var ids := Abandoned(View(), cutoff);
      count := |ids|;
      var todo := ids;
      while todo != {}
        invariant todo <= ids && View() == MarkAll(start, ids - todo, RequeueNow, now)
        decreases todo
      {
        var id :| id in todo;
        MarkOneMore(start, ids - todo, id, RequeueNow, now);
        var verdict := ApplyMark(id, RequeueNow, now);
        assert ids - (todo - {id}) == (ids - todo) + {id};
        todo := todo - {id};
      }
      assert ids - todo == ids;
      AbandonedAreRescued(start, cutoff, now);
      if Valid(start) { MarkAllKeepsValid(start, ids, RequeueNow, now); }
    }

    /** Tries one candidate that no ceiling holds back: fails an exhausted job, or claims. `start`
        is the store as the claim began. */
    method ClaimOne(id: JobId, c: Job, p: Policy, now: Time, ghost start: Db) returns (won: bool)
      requires OnlyExhaustedFailed(start, View(), now)
      requires id in jobs && jobs[id] == c && id in start.jobs && start.jobs[id] == c && Eligible(c, now)
      requires c.state == Received ==> !AtCeiling(start, p, c.req.client)
      modifies this
      ensures won <==> id !in Exhausted(start, now)
      ensures won ==> Wins(old(View()), p, now, id) && View() == ClaimEffect(old(View()), p, now, id)
      ensures !won ==>
                && View() == Transition(old(View()), id, FailExhausted, now)
                && OnlyExhaustedFailed(start, View(), now)
                && |FailedNow(start, View(), now)| == |FailedNow(start, old(View()), now)| + 1
                && jobs == old(jobs)[id := jobs[id]]
    {
      if c.state == Received {
        if c.attempts >= c.req.maxAttempts {
          FailOneMore(start, View(), id, now);
          var verdict := ApplyMark(id, FailExhausted, now);
          won := false;
        } else {
          HoldingKept(start, View(), now, c.req.client);
          won := ClaimReceivedJob(id, c.req.client, p.Ceiling(c.req.client), now);
        }
      } else {
        won := ClaimTick(id, c.nextAt.value, now + p.lease(c.req.target), now);
      }
    }

    /** Tries the i-th candidate of a query, unless its client is at its ceiling. */
    method TryOne(cands: seq<JobId>, i: nat, p: Policy, now: Time, start: Db, capped: set<string>,
                  ghost queried: Db, ghost excluded: set<string>) returns (won: bool, aside: set<string>)
      requires i < |cands| && IsBatch(queried, now, excluded, cands)
      requires Scanned(start, queried, View(), p, now, excluded, cands, i, capped)
      modifies this
      ensures won ==> ClaimedFrom(start, old(View()), View(), p, now, excluded, cands[i]) && aside == capped
      ensures !won ==> Scanned(start, queried, View(), p, now, excluded, cands, i + 1, aside)
    {
      ghost var cur := View();
      var id := cands[i];
      NextIsOriginal(start, queried, cur, p, now, excluded, cands, i, capped);
      var c := jobs[id];
      if c.state == Received && AtCeiling(start, p, c.req.client) {
        ScanSetsAside(start, queried, cur, p, now, excluded, cands, i, capped);
        return false, capped + {c.req.client};
      }
      aside := capped;
      won := ClaimOne(id, c, p, now, start);
      if !won { ScanGoesOn(start, queried, cur, View(), p, now, excluded, cands, i, capped); }
    }

    /** Tries the candidates of one query in order. */
    method TryBatch(cands: seq<JobId>, p: Policy, now: Time, start: Db, ghost excluded: set<string>)
      returns (claimed: Option<JobId>, capped: set<string>, ghost before: Db, ghost tried: nat)
      requires OnlyExhaustedFailed(start, View(), now) && IsBatch(View(), now, excluded, cands)
      modifies this
      ensures Scanned(start, old(View()), before, p, now, excluded, cands, tried, capped)
      ensures claimed.None? ==> View() == before && tried == |cands|
      ensures claimed.Some? ==>
                && tried < |cands| && claimed.value == cands[tried]
                && ClaimedFrom(start, before, View(), p, now, excluded, claimed.value)
    {
      ghost var queried := View();
      ScanStarts(start, queried, p, now, excluded, cands);
      capped := {};
      for i := 0 to |cands|
        invariant Scanned(start, queried, View(), p, now, excluded, cands, i, capped)
      {
        before := View();
        var won, aside := TryOne(cands, i, p, now, start, capped, queried, excluded);
        if won { return Some(cands[i]), capped, before, i; }
        capped := aside;
      }
      return None, capped, View(), |cands|;
    }

    /** Claims the next eligible job, or returns None. Candidates are tried in order; clients at
        their ceiling are set aside and the query repeated, at most CLAIM_ROUNDS times. */
    method ClaimNext(p: Policy, now: Time) returns (claimed: Option<JobId>, ghost before: Db)
      modifies this
      ensures OnlyExhaustedFailed(old(View()), before, now)
      ensures Valid(old(View())) ==> Valid(View())
      ensures claimed.None? ==> View() == before
      ensures claimed.Some? ==>
                && Original(old(View()), before, now, {}, claimed.value)
                && claimed.value !in Exhausted(old(View()), now)
                && (old(jobs)[claimed.value].state == Received ==> Claimable(old(View()), p, now, claimed.value))
                && Wins(before, p, now, claimed.value) && View() == ClaimEffect(before, p, now, claimed.value)
      // Completeness, as far as the rounds reach.
      ensures claimed.None? && |Capped(old(View()), p, now)| + |Exhausted(old(View()), now)| / 8 <= 7 ==>
                forall id :: !Claimable(old(View()), p, now, id)
      // Order: no work there was comes before the claimed job by priority, nor by age within its client.
      ensures claimed.Some? ==> ComesFirst(old(View()), p, now, claimed.value)
      // The whole order, when nothing stands in the way.
      ensures Capped(old(View()), p, now) == {} && Exhausted(old(View()), now) == {} ==>
                before == old(View()) &&
                var rows := Rows(old(View()), now, {});
                if claimed.None? then rows == {}
                else claimed.value in rows && forall o | o in rows :: Yields(old(View()), rows, o, claimed.value)
    {
      var start := View();
      NothingFailed(start, now);
      ghost var clear := Capped(start, p, now) == {} && Exhausted(start, now) == {};
      var excluded: set<string> := {};
      var round := 0;
      while round < CLAIM_ROUNDS
        invariant 0 <= round <= CLAIM_ROUNDS
        invariant Progress(start, View(), p, now, excluded, round)
        invariant clear ==> round == 0 && View() == start && excluded == {}
      {
        ghost var queried := View();
        var cands := ClaimCandidates(View(), now, excluded);
        var winner, capped, mid, tried := TryBatch(cands, p, now, start, excluded);
        before := mid;
        if winner.Some? {
          ClaimedComesFirst(start, queried, p, now, excluded, cands, tried);
          if clear { FirstOfBatch(start, now, cands); }
          if Valid(start) { ClaimKeeps(start, mid, p, now, winner.value, View()); }
          return winner, mid;
        }
        if |cands| < CLAIM_BATCH {
          SeenToTheEnd(start, queried, p, now, excluded, cands);
          if Valid(start) { FailuresKeepValid(start, mid, now); }
          return None, mid;
        }
        RoundCounts(excluded, capped, |FailedNow(start, queried, now)|, |FailedNow(start, View(), now)|, round);
        excluded := excluded + capped;
        round := round + 1;
      }
      RoundsRunOut(start, View(), p, now, excluded);
      if Valid(start) { FailuresKeepValid(start, View(), now); }
      return None, View();
    }
  }

  lemma FirstOfBatch(db: Db, now: Time, cands: seq<JobId>)
    requires IsBatch(db, now, {}, cands) && cands != []
    ensures var rows := Rows(db, now, {});
            First(db, rows, rows, cands[0]) && forall o | o in rows :: Yields(db, rows, o, cands[0])
  {
    var rows := Rows(db, now, {});
    assert First(db, rows, rows - Elems(cands[..0]), cands[0]);
    assert rows - Elems(cands[..0]) == rows;
    FirstIsYieldedTo(db, rows, rows, cands[0]);
  }

  /** No claimable job has a higher priority, and none of the same client and priority is older. */
  ghost predicate ComesFirst(db: Db, p: Policy, now: Time, id: JobId) {
    && id in db.jobs
    && var j := db.jobs[id];
       forall o | Claimable(db, p, now, o) ::
         && db.jobs[o].req.priority <= j.req.priority
         && (db.jobs[o].req.client == j.req.client && db.jobs[o].req.priority == j.req.priority ==>
               !Older(db.jobs[o], j))
  }

  lemma ClaimedComesFirst(db: Db, queried: Db, p: Policy, now: Time, excluded: set<string>, cands: seq<JobId>, i: nat)
    requires OnlyExhaustedFailed(db, queried, now) && excluded <= Capped(db, p, now)
    requires IsBatch(queried, now, excluded, cands) && i < |cands|
    requires cands[i] in db.jobs && queried.jobs[cands[i]] == db.jobs[cands[i]]
    requires forall k | 0 <= k < i :: !Claimable(db, p, now, cands[k])
    ensures ComesFirst(db, p, now, cands[i])
  {
    var rows := Rows(queried, now, excluded);
    BatchIsInTurn(queried, now, excluded, cands);
    forall o | Claimable(db, p, now, o) ensures o in rows && o !in cands[..i] && queried.jobs[o] == db.jobs[o] {
      ClaimableIsQueried(db, queried, p, now, excluded, o);
    }
    assert forall o | Claimable(db, p, now, o) :: Yields(queried, rows, o, cands[i]);
  }

  lemma LaterCandidatesDiffer(db: Db, now: Time, excluded: set<string>, cands: seq<JobId>, i: nat)
    requires IsBatch(db, now, excluded, cands) && i < |cands|
    ensures forall k | i < k < |cands| :: cands[k] != cands[i]
  {
    var rows := Rows(db, now, excluded);
    forall k | i < k < |cands| ensures cands[k] != cands[i] {
      assert First(db, rows, rows - Elems(cands[..k]), cands[k]);
      assert cands[..k][i] == cands[i] && cands[i] in Elems(cands[..k]);
    }
  }

  /** A short batch holds every eligible row of every client not set aside. */
  lemma SeenToTheEnd(db: Db, cur: Db, p: Policy, now: Time, excluded: set<string>, cands: seq<JobId>)
    requires OnlyExhaustedFailed(db, cur, now) && excluded <= Capped(db, p, now)
    requires IsBatch(cur, now, excluded, cands) && |cands| < CLAIM_BATCH
    requires forall k | 0 <= k < |cands| :: !Claimable(db, p, now, cands[k])
    ensures forall id :: !Claimable(db, p, now, id)
  {
    forall id ensures Claimable(db, p, now, id) ==> id in cands {
      if Claimable(db, p, now, id) { ClaimableIsQueried(db, cur, p, now, excluded, id); }
    }
  }

  lemma ClaimableIsQueried(db: Db, cur: Db, p: Policy, now: Time, excluded: set<string>, id: JobId)
    requires OnlyExhaustedFailed(db, cur, now) && excluded <= Capped(db, p, now) && Claimable(db, p, now, id)
    ensures id in Rows(cur, now, excluded)
  {
    assert db.jobs[id].req.client !in Capped(db, p, now);
  }
}
