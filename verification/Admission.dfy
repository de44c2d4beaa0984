/**
 What admission promises under every interleaving of store writes: the per-client
 in-flight ceiling, the per-client queue cap and one job per idempotency key.
 */
module Admission {
  import opened Wrappers
  import opened JobTable

  // ----- The in-flight ceiling ---------------------------------------------

  /** A claim as ClaimNext issues it: the ceiling of the row's own client. */
  ghost predicate ClaimsUnder(db: Db, op: Op, limit: string -> int) {
    op.OpClaim? ==>
      && op.maxConcurrent == limit(op.client)
      && (op.id in db.jobs ==> db.jobs[op.id].req.client == op.client)
  }

  lemma ApplyKeepsCeiling(db: Db, op: Op, limit: string -> int, c: string)
    requires ClaimsUnder(db, op, limit)
    requires limit(c) > 0 && |Holding(db, c)| <= limit(c)
    ensures |Holding(Apply(db, op), c)| <= limit(c)
  {
    var db' := Apply(db, op);
    if op.OpClaim? && op.client == c && ClaimWins(db, op.id, c, op.maxConcurrent, op.now) {
      assert Holding(db', c) == Holding(db, c) + {op.id};
    } else {
      HoldingShrinks(db, op, c);
      SubsetSize(Holding(db', c), Holding(db, c));
    }
  }

  /** Only a claim of the client's own job lets the set of its in-flight jobs grow. */
  lemma HoldingShrinks(db: Db, op: Op, c: string)
    requires op.OpClaim? ==> !ClaimWins(db, op.id, op.client, op.maxConcurrent, op.now) ||
                             (db.jobs[op.id].req.client == op.client && op.client != c)
    ensures Holding(Apply(db, op), c) <= Holding(db, c)
  {
    match op
    case OpMark(_, m, _) => match m { case SetResolved(_) => case _ => }
    case _ =>
  }

  ghost predicate AllUnder(db: Db, ops: seq<Op>, limit: string -> int) {
    forall k :: 0 <= k < |ops| ==> ClaimsUnder(Exec(db, ops[..k]), ops[k], limit)
  }

  /** No interleaving of claims and any other writes takes a client over its ceiling. */
  lemma {:induction false} CeilingHolds(db: Db, ops: seq<Op>, limit: string -> int, c: string)
    requires AllUnder(db, ops, limit)
    requires limit(c) > 0 && |Holding(db, c)| <= limit(c)
    ensures |Holding(Exec(db, ops), c)| <= limit(c)
  {
    if ops != [] {
      var n := |ops| - 1;
      forall k | 0 <= k < n ensures ClaimsUnder(Exec(db, ops[..n][..k]), ops[..n][k], limit) {
        assert ops[..n][..k] == ops[..k];
        assert ClaimsUnder(Exec(db, ops[..k]), ops[k], limit);
      }
      CeilingHolds(db, ops[..n], limit, c);
      assert ClaimsUnder(Exec(db, ops[..n]), ops[n], limit);
      ApplyKeepsCeiling(Exec(db, ops[..n]), ops[n], limit, c);
    }
  }

  // ----- The queue cap -----------------------------------------------------

  predicate CarriesCap(op: Op, c: string, cap: int) {
    op.OpCreate? && op.req.client == c ==> op.cap == cap
  }

  lemma ApplyKeepsCap(db: Db, op: Op, c: string, cap: int)
    requires CarriesCap(op, c, cap) && cap > 0 && |Queued(db, c)| <= cap
    ensures |Queued(Apply(db, op), c)| <= cap
  {
    var db' := Apply(db, op);
    if op.OpCreate? && op.req.client == c && db' != db {
      assert Queued(db', c) == Queued(db, c) + {op.id};
    } else {
      QueuedShrinks(db, op, c);
      SubsetSize(Queued(db', c), Queued(db, c));
    }
  }

  lemma QueuedShrinks(db: Db, op: Op, c: string)
    requires op.OpCreate? ==> op.req.client != c || Apply(db, op) == db
    ensures Queued(Apply(db, op), c) <= Queued(db, c)
  {
    match op
    case OpCreate(_, _, _, _, _) =>
    case OpMark(_, _, _) =>
    case OpClaim(_, _, _, _) =>
    case _ =>
  }

  /** When every creation for a client carries its cap, no interleaving exceeds it. */
  lemma {:induction false} CapHolds(db: Db, ops: seq<Op>, c: string, cap: int)
    requires forall k :: 0 <= k < |ops| ==> CarriesCap(ops[k], c, cap)
    requires cap > 0 && |Queued(db, c)| <= cap
    ensures |Queued(Exec(db, ops), c)| <= cap
  {
    if ops != [] {
      CapHolds(db, ops[..|ops| - 1], c, cap);
      ApplyKeepsCap(Exec(db, ops[..|ops| - 1]), ops[|ops| - 1], c, cap);
    }
  }

  /** The scheduler creates with cap 0; one such creation can pass the cap. */
  lemma UncappedCreateOvershoots() returns (db: Db, op: Op)
    ensures Valid(db) && |Queued(db, "c")| <= 1
    ensures op.OpCreate? && op.req.client == "c" && op.cap == 0
    ensures |Queued(Apply(db, op), "c")| == 2
  {
    var r := Request("c", "", "t", "", "", 1, 0, None);
    db := Create(EMPTY, "a", r, 1, 1, 0);
    assert Queued(EMPTY, "c") == {};
    CreateKeepsValid(EMPTY, "a", r, 1, 1, 0);
    assert db.jobs == map["a" := NewJob(r, 1, 0)];
    assert Queued(db, "c") == {"a"};
    op := OpCreate("b", r, 2, 0, 0);
    assert Queued(Apply(db, op), "c") == {"a", "b"};
  }

  // ----- One job per key -----------------------------------------------------

  datatype Replay = Stored(id: JobId) | Conflict | Gone

  /** The read that settles a key collision, outside the failed insert's transaction. */
  ghost function ReplayIdempotent(db: Db, req: Request): Replay {
    if Keyed(db, req.client, req.key) == {} then Gone
    else
      var id :| id in Keyed(db, req.client, req.key);
      var r := db.jobs[id].req;
      if r.target != req.target || r.payload != req.payload then Conflict else Stored(id)
  }

  /** As long as a key's job is not deleted, whatever else is written: a creation
      under that key never inserts, and its replay names that job exactly when
      target and payload agree, and is refused exactly when they do not. */
  lemma OneJobPerKey(db: Db, ops: seq<Op>, id: JobId, newId: JobId, req: Request, cap: int)
    requires Valid(db) && Survives(db, ops, id)
    requires id in db.jobs && SameKey(db.jobs[id].req, req)
    ensures CreateVerdict(Exec(db, ops), newId, req, cap) == MustReplay
    ensures ReplayIdempotent(Exec(db, ops), req) ==
              if db.jobs[id].req.target == req.target && db.jobs[id].req.payload == req.payload
              then Stored(id) else Conflict
  {
    FinalIsFinal(db, ops, id);
    RunsKeepValid(db, ops);
    var db' := Exec(db, ops);
    forall k | k in Keyed(db', req.client, req.key) ensures k == id {
      assert SameKey(db'.jobs[k].req, db'.jobs[id].req);
    }
    assert id in Keyed(db', req.client, req.key);
  }

  /** A creation that lost the insert race reads back the winner, unless it was pruned
      in between: the collision at `db` and the read after any further writes agree. */
  lemma CollisionSettles(db: Db, ops: seq<Op>, newId: JobId, req: Request, cap: int) returns (winner: JobId)
    requires Valid(db) && CreateVerdict(db, newId, req, cap) == MustReplay
    ensures winner in db.jobs && SameKey(db.jobs[winner].req, req)
    ensures Survives(db, ops, winner) ==>
              match ReplayIdempotent(Exec(db, ops), req)
              case Stored(id) => id == winner && db.jobs[winner].req.target == req.target
                 && db.jobs[winner].req.payload == req.payload
              case Conflict => db.jobs[winner].req.target != req.target || db.jobs[winner].req.payload != req.payload
              case Gone => false
  {
    winner :| winner in Keyed(db, req.client, req.key);
    if Survives(db, ops, winner) {
      OneJobPerKey(db, ops, winner, newId, req, cap);
    }
  }
}
