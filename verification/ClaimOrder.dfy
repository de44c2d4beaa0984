/**
 The candidate query of a claim: which rows are eligible and in which order they are tried.
 */
module ClaimOrder {
  import opened Wrappers
  import opened JobTable

  const CLAIM_BATCH := 8
  const CLAIM_ROUNDS := 8

  // ----- Lexicographic order on sort keys ---------------------------------------

  predicate Less(a: seq<int>, b: seq<int>)
    requires |a| == |b|
  {
    a != [] && (a[0] < b[0] || (a[0] == b[0] && Less(a[1..], b[1..])))
  }

  lemma {:induction false} LessTransitive(a: seq<int>, b: seq<int>, c: seq<int>)
    requires |a| == |b| == |c| && !Less(b, a) && !Less(c, b)
    ensures !Less(c, a)
  {
    if a != [] && a[0] == b[0] == c[0] {
      LessTransitive(a[1..], b[1..], c[1..]);
    }
  }

  lemma {:induction false} LessAsymmetric(a: seq<int>, b: seq<int>)
    requires |a| == |b| && Less(a, b)
    ensures !Less(b, a)
  {
    if a[0] == b[0] { LessAsymmetric(a[1..], b[1..]); }
  }

  lemma {:induction false} LessIrreflexive(a: seq<int>)
    ensures !Less(a, a)
  {
    if a != [] { LessIrreflexive(a[1..]); }
  }

  // ----- The query ----------------------------------------------------------------

  function Rows(db: Db, now: Time, excluded: set<string>): set<JobId> {
    set id | id in db.jobs && Eligible(db.jobs[id], now) && db.jobs[id].req.client !in excluded
  }

  /** Within one client: priority, then age. */
  function AgeKey(j: Job): (k: seq<int>)
    ensures |k| == 3
  {
    [-j.req.priority, j.createdAt, j.rowid]
  }

  /** The rows of the same client that come before `id` in its own order. */
  function Ahead(db: Db, rows: set<JobId>, id: JobId): set<JobId>
    requires rows <= db.jobs.Keys && id in rows
  {
    set o | o in rows && db.jobs[o].req.client == db.jobs[id].req.client
            && Less(AgeKey(db.jobs[o]), AgeKey(db.jobs[id]))
  }

  /** When a client was last handed a job; a client never served sorts first. */
  function Served(db: Db, client: string): (k: seq<int>)
    ensures |k| == 2
  {
    if client in db.served then [1, db.served[client]] else [0, 0]
  }

  /** Across clients: priority, then turn, then the least recently served client, then age. */
  function SortKey(db: Db, rows: set<JobId>, id: JobId): (k: seq<int>)
    requires rows <= db.jobs.Keys && id in rows
    ensures |k| == 6
  {
    var j := db.jobs[id];
    [-j.req.priority, |Ahead(db, rows, id)|] + Served(db, j.req.client) + [j.createdAt, j.rowid]
  }

  function Elems(ids: seq<JobId>): set<JobId> {
    set id | id in ids
  }

  predicate First(db: Db, rows: set<JobId>, rest: set<JobId>, id: JobId)
    requires rows <= db.jobs.Keys && rest <= rows
  {
    id in rest && forall o | o in rest :: !Less(SortKey(db, rows, o), SortKey(db, rows, id))
  }

  /** The batch one claim query returns: the first rows in order, each once. */
  ghost predicate IsBatch(db: Db, now: Time, excluded: set<string>, batch: seq<JobId>) {
    var rows := Rows(db, now, excluded);
    && |batch| <= CLAIM_BATCH
    && (forall i | 0 <= i < |batch| :: First(db, rows, rows - Elems(batch[..i]), batch[i]))
    && (|batch| < CLAIM_BATCH ==> forall id | id in rows :: id in batch)
  }

  // ----- The order in plain terms -----------------------------------------------------

  predicate Older(x: Job, y: Job) {
    x.createdAt < y.createdAt || (x.createdAt == y.createdAt && x.rowid < y.rowid)
  }

  /** x is ahead of y in the queue of their client. */
  predicate Queues(x: Job, y: Job) {
    x.req.client == y.req.client
    && (x.req.priority > y.req.priority || (x.req.priority == y.req.priority && Older(x, y)))
  }

  /** How many rows are ahead of this one in the queue of its client. */
  ghost function Turn(db: Db, rows: set<JobId>, id: JobId): nat
    requires rows <= db.jobs.Keys && id in rows
  {
    |set o | o in rows && Queues(db.jobs[o], db.jobs[id])|
  }

  /** Client c waited longer for a job than client d. */
  predicate WaitedLonger(db: Db, c: string, d: string) {
    d in db.served && (c in db.served ==> db.served[c] < db.served[d])
  }

  /** Row o has no claim to come before row id. */
  ghost predicate Yields(db: Db, rows: set<JobId>, o: JobId, id: JobId)
    requires rows <= db.jobs.Keys && o in rows && id in rows
  {
    var x, y := db.jobs[o], db.jobs[id];
    && x.req.priority <= y.req.priority
    && (x.req.priority == y.req.priority ==>
          && Turn(db, rows, o) >= Turn(db, rows, id)
          && (x.req.client == y.req.client ==> !Older(x, y))
          && (Turn(db, rows, o) == Turn(db, rows, id) ==>
                && !WaitedLonger(db, x.req.client, y.req.client)
                && (!WaitedLonger(db, y.req.client, x.req.client) ==> !Older(x, y))))
  }

  lemma LessPair(x: int, s: seq<int>, y: int, t: seq<int>)
    requires |s| == |t|
    ensures Less([x] + s, [y] + t) <==> x < y || (x == y && Less(s, t))
  {
    assert ([x] + s)[1..] == s && ([y] + t)[1..] == t;
  }

  lemma LessTwo(x: int, x': int, y: int, y': int)
    ensures Less([x, x'], [y, y']) <==> x < y || (x == y && x' < y')
  {
    assert [x, x'] == [x] + [x'] && [y, y'] == [y] + [y'] && [x'] == [x'] + [] && [y'] == [y'] + [];
    LessPair(x, [x'], y, [y']);
    LessPair(x', [], y', []);
  }

  lemma AgeOrder(x: Job, y: Job)
    ensures x.req.client == y.req.client ==> (Less(AgeKey(x), AgeKey(y)) <==> Queues(x, y))
  {
    assert AgeKey(x) == [-x.req.priority] + [x.createdAt, x.rowid];
    assert AgeKey(y) == [-y.req.priority] + [y.createdAt, y.rowid];
    LessPair(-x.req.priority, [x.createdAt, x.rowid], -y.req.priority, [y.createdAt, y.rowid]);
    LessTwo(x.createdAt, x.rowid, y.createdAt, y.rowid);
  }

  lemma AheadIsTurn(db: Db, rows: set<JobId>, id: JobId)
    requires rows <= db.jobs.Keys && id in rows
    ensures |Ahead(db, rows, id)| == Turn(db, rows, id)
  {
    forall o | o in rows { AgeOrder(db.jobs[o], db.jobs[id]); }
    assert Ahead(db, rows, id) == set o | o in rows && Queues(db.jobs[o], db.jobs[id]);
  }

  /** Who is ahead in the queue has fewer rows ahead. */
  lemma TurnsGrow(db: Db, rows: set<JobId>, o: JobId, id: JobId)
    requires rows <= db.jobs.Keys && o in rows && id in rows && Queues(db.jobs[o], db.jobs[id])
    ensures Turn(db, rows, o) < Turn(db, rows, id)
  {
    var a := set x | x in rows && Queues(db.jobs[x], db.jobs[o]);
    var b := set x | x in rows && Queues(db.jobs[x], db.jobs[id]);
    assert o in b && a <= b - {o};
    SubsetSize(a, b - {o});
  }

  lemma ServedOrder(db: Db, c: string, d: string)
    ensures Less(Served(db, c), Served(db, d)) <==> WaitedLonger(db, c, d)
    ensures !Less(Served(db, c), Served(db, d)) && !Less(Served(db, d), Served(db, c)) ==>
              Served(db, c) == Served(db, d)
  {
    var s, t := Served(db, c), Served(db, d);
    LessTwo(s[0], s[1], t[0], t[1]);
    LessTwo(t[0], t[1], s[0], s[1]);
    assert s == [s[0], s[1]] && t == [t[0], t[1]];
  }

  lemma {:induction false} LessAppended(s: seq<int>, a: seq<int>, t: seq<int>, b: seq<int>)
    requires |s| == |t| && |a| == |b|
    ensures Less(s + a, t + b) <==> Less(s, t) || (s == t && Less(a, b))
  {
    if s == [] {
      assert s + a == a && t + b == b;
    } else {
      LessAppended(s[1..], a, t[1..], b);
      assert (s + a)[1..] == s[1..] + a && (t + b)[1..] == t[1..] + b;
      SameStart(s, t);
    }
  }

  lemma SameStart(s: seq<int>, t: seq<int>)
    requires |s| == |t| > 0
    ensures s == t <==> s[0] == t[0] && s[1..] == t[1..]
  {
    assert s == [s[0]] + s[1..] && t == [t[0]] + t[1..];
  }

  /** What the sort key compares. */
  lemma KeyOrder(db: Db, rows: set<JobId>, o: JobId, id: JobId)
    requires rows <= db.jobs.Keys && o in rows && id in rows
    ensures var x, y, t, u := db.jobs[o], db.jobs[id], Turn(db, rows, o), Turn(db, rows, id);
            Less(SortKey(db, rows, o), SortKey(db, rows, id)) <==>
            if x.req.priority != y.req.priority then x.req.priority > y.req.priority
            else if t != u then t < u
            else if WaitedLonger(db, x.req.client, y.req.client) then true
            else !WaitedLonger(db, y.req.client, x.req.client) && Older(x, y)
  {
    var x, y := db.jobs[o], db.jobs[id];
    var s, t := Served(db, x.req.client), Served(db, y.req.client);
    AheadIsTurn(db, rows, o);
    AheadIsTurn(db, rows, id);
    LessAppended([-x.req.priority, |Ahead(db, rows, o)|] + s, [x.createdAt, x.rowid],
                 [-y.req.priority, |Ahead(db, rows, id)|] + t, [y.createdAt, y.rowid]);
    LessAppended([-x.req.priority, |Ahead(db, rows, o)|], s, [-y.req.priority, |Ahead(db, rows, id)|], t);
    LessTwo(-x.req.priority, |Ahead(db, rows, o)|, -y.req.priority, |Ahead(db, rows, id)|);
    LessTwo(x.createdAt, x.rowid, y.createdAt, y.rowid);
    ServedOrder(db, x.req.client, y.req.client);
    ServedOrder(db, y.req.client, x.req.client);
  }

  /** The rest yields to the first row: by priority, within its client by age, then by turns, then to who waited
      longest. */
  lemma FirstIsYieldedTo(db: Db, rows: set<JobId>, rest: set<JobId>, id: JobId)
    requires rows <= db.jobs.Keys && rest <= rows && First(db, rows, rest, id)
    ensures forall o | o in rest :: Yields(db, rows, o, id)
  {
    forall o | o in rest ensures Yields(db, rows, o, id) {
      KeyOrder(db, rows, o, id);
      if Queues(db.jobs[o], db.jobs[id]) { TurnsGrow(db, rows, o, id); }
    }
  }

  /** The earliest of the remaining rows. */
  method FindFirst(db: Db, rows: set<JobId>, rest: set<JobId>) returns (best: JobId)
    requires rows <= db.jobs.Keys && rest <= rows && rest != {}
    ensures First(db, rows, rest, best)
    ensures forall o | o in rest :: Yields(db, rows, o, best)
  {
    best :| best in rest;
    var todo := rest - {best};
    LessIrreflexive(SortKey(db, rows, best));
    while todo != {}
      invariant todo <= rest && best in rest
      invariant forall o | o in rest - todo :: !Less(SortKey(db, rows, o), SortKey(db, rows, best))
      decreases todo
    {
      var o :| o in todo;
      if Less(SortKey(db, rows, o), SortKey(db, rows, best)) {
        LessAsymmetric(SortKey(db, rows, o), SortKey(db, rows, best));
        forall p | p in rest - todo ensures !Less(SortKey(db, rows, p), SortKey(db, rows, o)) {
          LessTransitive(SortKey(db, rows, o), SortKey(db, rows, best), SortKey(db, rows, p));
        }
        best := o;
        LessIrreflexive(SortKey(db, rows, o));
      }
      todo := todo - {o};
    }
    FirstIsYieldedTo(db, rows, rest, best);
  }

  /** Every eligible row not listed yet yields to the one listed next. */
  ghost predicate InTurn(db: Db, rows: set<JobId>, batch: seq<JobId>)
    requires rows <= db.jobs.Keys
  {
    forall i, o | 0 <= i < |batch| && o in rows && o !in batch[..i] ::
      batch[i] in rows && Yields(db, rows, o, batch[i])
  }

  lemma BatchIsInTurn(db: Db, now: Time, excluded: set<string>, batch: seq<JobId>)
    requires IsBatch(db, now, excluded, batch)
    ensures InTurn(db, Rows(db, now, excluded), batch)
  {
    var rows := Rows(db, now, excluded);
    forall i, o | 0 <= i < |batch| && o in rows && o !in batch[..i]
      ensures batch[i] in rows && Yields(db, rows, o, batch[i])
    {
      FirstIsYieldedTo(db, rows, rows - Elems(batch[..i]), batch[i]);
    }
  }

  /** The query: select, order, limit. */
  method ClaimCandidates(db: Db, now: Time, excluded: set<string>) returns (batch: seq<JobId>)
    ensures IsBatch(db, now, excluded, batch)
    ensures InTurn(db, Rows(db, now, excluded), batch)
  {
    var rows := Rows(db, now, excluded);
    batch := [];
    var rest := rows;
    while |batch| < CLAIM_BATCH && rest != {}
      invariant |batch| <= CLAIM_BATCH
      invariant rest == rows - Elems(batch)
      invariant forall i | 0 <= i < |batch| :: First(db, rows, rows - Elems(batch[..i]), batch[i])
      decreases CLAIM_BATCH - |batch|
    {
      var id := FindFirst(db, rows, rest);
      var longer := batch + [id];
      assert Elems(longer) == Elems(batch) + {id};
      forall i | 0 <= i < |longer| ensures First(db, rows, rows - Elems(longer[..i]), longer[i]) {
        assert longer[..i] == batch[..i];
        if i == |batch| { assert batch[..i] == batch; }
      }
      batch, rest := longer, rest - {id};
    }
    if |batch| < CLAIM_BATCH {
      forall id | id in rows ensures id in batch { assert id !in rest; }
    }
    BatchIsInTurn(db, now, excluded, batch);
  }
}
