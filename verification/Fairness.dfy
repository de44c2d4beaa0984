/**
 Round-robin fairness of claims over whole runs: with equal priorities and nothing but due
 received jobs, a client is not served again before every other waiting client was.
 */
module Fairness {
  import opened Wrappers
  import opened JobTable
  import opened ClaimOrder

  /** One claim: the store it saw, its time, and the job it took. */
  datatype Turn = Turn(db: Db, now: Time, id: JobId)

  function Client(t: Turn): string
    requires t.id in t.db.jobs
  {
    t.db.jobs[t.id].req.client
  }

  /** What the property assumes of the store at a claim: equal priorities. */
  ghost predicate Level(db: Db, rows: set<JobId>) {
    rows <= db.jobs.Keys && forall a, b | a in rows && b in rows :: db.jobs[a].req.priority == db.jobs[b].req.priority
  }

  /** A claim as ClaimNext makes it when no ceiling and no exhausted job stands in the way:
      it takes the first due row, and here every due row is a received job. */
  ghost predicate Takes(t: Turn) {
    var rows := Rows(t.db, t.now, {});
    && Level(t.db, rows)
    && (forall id | id in rows :: t.db.jobs[id].state == Received)
    && First(t.db, rows, rows, t.id)
  }

  function After(t: Turn): Db
    requires t.id in t.db.jobs
  {
    ClaimReceived(t.db, t.id, Client(t), 0, t.now)
  }

  /** Any writes between two claims that are not themselves claims. */
  predicate NoClaims(ops: seq<Op>) {
    forall k | 0 <= k < |ops| :: !ops[k].OpClaim?
  }

  ghost predicate Follows(t: Turn, t': Turn, ops: seq<Op>) {
    t.id in t.db.jobs && NoClaims(ops) && t'.db == Exec(After(t), ops) && t.now < t'.now
  }

  /** A run of claims at increasing times, with arbitrary other writes between them. */
  ghost predicate ClaimRun(run: seq<Turn>, gaps: seq<seq<Op>>) {
    && run != [] && |gaps| == |run| - 1
    && (forall i | 0 <= i < |run| :: Takes(run[i]))
    && (forall i | 0 <= i < |gaps| :: Follows(run[i], run[i + 1], gaps[i]))
    // Stamps from before the run are older than its first claim.
    && (forall c | c in run[0].db.served :: run[0].db.served[c] < run[0].now)
  }

  // ----- Stamps -------------------------------------------------------------------

  lemma {:induction false} OtherWritesKeepStamps(db: Db, ops: seq<Op>)
    requires NoClaims(ops)
    ensures Exec(db, ops).served == db.served
  {
    if ops != [] {
      OtherWritesKeepStamps(db, ops[..|ops| - 1]);
    }
  }

  lemma TakesClaims(t: Turn)
    requires Takes(t)
    ensures t.id in t.db.jobs && After(t).served == t.db.served[Client(t) := t.now]
  {
  }

  /** A client's stamp at the j-th claim is the time of its latest claim before, if it had one
      in this run, and otherwise older than the run. */
  ghost predicate StampedBy(run: seq<Turn>, j: nat, c: string)
    requires j < |run|
  {
    c in run[j].db.served ==>
      || run[j].db.served[c] < run[0].now
      || exists m :: 0 <= m < j && ServedAt(run, m, c) && run[m].now == run[j].db.served[c]
  }

  /** What one claim and the writes up to the next one do to the stamps. */
  ghost predicate Stamps(run: seq<Turn>, j: nat)
    requires 0 < j < |run|
  {
    && run[j - 1].id in run[j - 1].db.jobs && run[j - 1].now < run[j].now
    && run[j].db.served == run[j - 1].db.served[Client(run[j - 1]) := run[j - 1].now]
  }

  ghost predicate Stamped(run: seq<Turn>) {
    && run != []
    && (forall j | 0 < j < |run| :: Stamps(run, j))
    && (forall c | c in run[0].db.served :: run[0].db.served[c] < run[0].now)
  }

  lemma RunIsStamped(run: seq<Turn>, gaps: seq<seq<Op>>)
    requires ClaimRun(run, gaps)
    ensures Stamped(run)
  {
    forall j | 0 < j < |run| ensures Stamps(run, j) {
      StampStep(run[j - 1], run[j], gaps[j - 1]);
      assert Follows(run[j - 1], run[j], gaps[j - 1]) && Takes(run[j - 1]);
    }
  }

  lemma StampStep(t: Turn, t': Turn, ops: seq<Op>)
    ensures Follows(t, t', ops) && Takes(t) ==> t'.db.served == t.db.served[Client(t) := t.now]
  {
    if Follows(t, t', ops) && Takes(t) {
      TakesClaims(t);
      OtherWritesKeepStamps(After(t), ops);
    }
  }

  lemma {:induction false} StampsComeFromClaims(run: seq<Turn>, j: nat, c: string)
    requires Stamped(run) && j < |run|
    ensures StampedBy(run, j, c)
  {
    if j > 0 {
      StampsComeFromClaims(run, j - 1, c);
      assert Stamps(run, j);
      if c in run[j].db.served && run[j].db.served[c] >= run[0].now {
        if c == Client(run[j - 1]) {
          assert ServedAt(run, j - 1, c) && run[j - 1].now == run[j].db.served[c];
        } else {
          var m :| 0 <= m < j - 1 && ServedAt(run, m, c) && run[m].now == run[j - 1].db.served[c];
          assert run[m].now == run[j].db.served[c];
        }
      }
    }
  }

  lemma {:induction false} TimesIncrease(run: seq<Turn>, i: nat, j: nat)
    requires Stamped(run) && i < j < |run|
    ensures run[i].now < run[j].now
  {
    assert Stamps(run, j);
    if i < j - 1 { TimesIncrease(run, i, j - 1); }
  }

  /** A client that is not served after its claim i still carries the stamp of that claim at j. */
  lemma {:induction false} StampStays(run: seq<Turn>, i: nat, j: nat, c: string)
    requires Stamped(run) && i < j < |run| && ServedAt(run, i, c)
    requires forall m | i < m < j :: !ServedAt(run, m, c)
    ensures c in run[j].db.served && run[j].db.served[c] == run[i].now
  {
    assert Stamps(run, j);
    if i < j - 1 {
      StampStays(run, i, j - 1, c);
      assert !ServedAt(run, j - 1, c);
    }
  }

  ghost predicate ServedAt(run: seq<Turn>, m: nat, c: string)
    requires m < |run|
  {
    run[m].id in run[m].db.jobs && Client(run[m]) == c
  }

  // ----- The order seen by one claim --------------------------------------------------

  predicate Waits(db: Db, now: Time, c: string) {
    exists id | id in Rows(db, now, {}) :: db.jobs[id].req.client == c
  }

  /** Every waiting client has a row with nobody of its own ahead. */
  lemma OldestRow(db: Db, rows: set<JobId>, mine: set<JobId>, c: string) returns (oldest: JobId)
    requires rows <= db.jobs.Keys && mine == (set id | id in rows && db.jobs[id].req.client == c) && mine != {}
    ensures oldest in mine && Ahead(db, rows, oldest) == {}
  {
    oldest :| oldest in mine;
    var todo := Ahead(db, rows, oldest);
    while todo != {}
      invariant oldest in mine && todo == Ahead(db, rows, oldest)
      decreases |todo|
    {
      var o :| o in todo;
      AheadShrinks(db, rows, oldest, o);
      oldest, todo := o, Ahead(db, rows, o);
    }
  }

  lemma AheadShrinks(db: Db, rows: set<JobId>, id: JobId, o: JobId)
    requires rows <= db.jobs.Keys && id in rows && o in Ahead(db, rows, id)
    ensures |Ahead(db, rows, o)| < |Ahead(db, rows, id)|
  {
    var a, b := Ahead(db, rows, o), Ahead(db, rows, id);
    LessIrreflexive(AgeKey(db.jobs[o]));
    forall x | x in a ensures x in b {
      LessChains(AgeKey(db.jobs[x]), AgeKey(db.jobs[o]), AgeKey(db.jobs[id]));
    }
    assert a <= b && o in b && o !in a;
    assert a <= b - {o};
    SubsetSize(a, b - {o});
  }

  lemma {:induction false} LessChains(a: seq<int>, b: seq<int>, c: seq<int>)
    requires |a| == |b| == |c| && Less(a, b) && Less(b, c)
    ensures Less(a, c)
  {
    if a[0] == b[0] == c[0] { LessChains(a[1..], b[1..], c[1..]); }
  }

  /** The client a claim serves was served no later than any other waiting client. */
  lemma LeastRecentFirst(t: Turn, d: string)
    requires Takes(t) && Waits(t.db, t.now, d)
    ensures t.id in t.db.jobs && !Less(Served(t.db, d), Served(t.db, Client(t)))
  {
    var rows := Rows(t.db, t.now, {});
    var mine := set id | id in rows && t.db.jobs[id].req.client == d;
    var some :| some in rows && t.db.jobs[some].req.client == d;
    assert some in mine;
    var o := OldestRow(t.db, rows, mine, d);
    StampsDecide(t.db, rows, o, t.id);
  }

  lemma StampsDecide(db: Db, rows: set<JobId>, o: JobId, id: JobId)
    requires rows <= db.jobs.Keys && o in rows && id in rows && db.jobs[o].req.priority == db.jobs[id].req.priority
    requires Ahead(db, rows, o) == {} && !Less(SortKey(db, rows, o), SortKey(db, rows, id))
    ensures !Less(Served(db, db.jobs[o].req.client), Served(db, db.jobs[id].req.client))
  {
    var a, b := SortKey(db, rows, o), SortKey(db, rows, id);
    KeyParts(-db.jobs[o].req.priority, |Ahead(db, rows, o)|, Served(db, db.jobs[o].req.client),
             [db.jobs[o].createdAt, db.jobs[o].rowid]);
    KeyParts(-db.jobs[id].req.priority, |Ahead(db, rows, id)|, Served(db, db.jobs[id].req.client),
             [db.jobs[id].createdAt, db.jobs[id].rowid]);
    KeysCompare(a, b);
  }

  lemma KeyParts(p: int, turn: int, stamp: seq<int>, age: seq<int>)
    requires |stamp| == 2 && |age| == 2
    ensures var k := [p, turn] + stamp + age; k[0] == p && k[1] == turn && k[2..4] == stamp
  {
  }

  /** Equal first component and a zero turn: the stamps decide. */
  lemma KeysCompare(a: seq<int>, b: seq<int>)
    requires |a| == |b| == 6 && a[0] == b[0] && a[1] == 0 <= b[1] && !Less(a, b)
    ensures b[1] == 0 && !Less(a[2..4], b[2..4])
  {
    assert Less(a, b) == Less(a[1..], b[1..]);
    assert a[1..][1..] == a[2..] && b[1..][1..] == b[2..];
    assert b[1] == 0 && !Less(a[2..], b[2..]);
    var p, q := a[2..4], b[2..4];
    assert a[2..][0] == p[0] && b[2..][0] == q[0];
    assert a[2..][1..][0] == p[1] && b[2..][1..][0] == q[1];
    assert p[1..][0] == p[1] && q[1..][0] == q[1];
    if Less(p, q) {
      if p[0] == q[0] {
        assert Less(p[1..], q[1..]) && p[1..][1..] == [] && q[1..][1..] == [];
        assert !Less(p[1..][1..], q[1..][1..]);
        assert p[1] < q[1];
        assert Less(a[2..][1..], b[2..][1..]);
      }
      assert Less(a[2..], b[2..]);
    }
  }

  // ----- Fairness over whole runs --------------------------------------------------------

  /** Between two consecutive claims of one client, every other client that is waiting at the
      second was served at least once. */
  lemma RoundRobin(run: seq<Turn>, gaps: seq<seq<Op>>, i: nat, j: nat, c: string, d: string)
    requires ClaimRun(run, gaps) && i < j < |run|
    requires ServedAt(run, i, c) && ServedAt(run, j, c) && forall m | i < m < j :: !ServedAt(run, m, c)
    requires d != c && Waits(run[j].db, run[j].now, d)
    ensures exists m :: i < m < j && ServedAt(run, m, d)
  {
    RunIsStamped(run, gaps);
    assert Takes(run[j]);
    LeastRecentFirst(run[j], d);
    ServedBetween(run, i, j, c, d);
  }

  lemma ServedBetween(run: seq<Turn>, i: nat, j: nat, c: string, d: string)
    requires Stamped(run) && i < j < |run| && d != c
    requires ServedAt(run, i, c) && ServedAt(run, j, c) && forall m | i < m < j :: !ServedAt(run, m, c)
    requires !Less(Served(run[j].db, d), Served(run[j].db, c))
    ensures exists m :: i < m < j && ServedAt(run, m, d)
  {
    StampStays(run, i, j, c);
    StampOf(run[j].db, d, run[i].now);
    StampsComeFromClaims(run, j, d);
    if i > 0 { TimesIncrease(run, 0, i); }
    var m :| 0 <= m < j && ServedAt(run, m, d) && run[m].now == run[j].db.served[d];
    if m < i { TimesIncrease(run, m, i); }
  }

  /** Not served before `t` means served at `t` or later. */
  lemma StampOf(db: Db, d: string, t: Time)
    requires !Less(Served(db, d), [1, t])
    ensures d in db.served && db.served[d] >= t
  {
    assert [1, t][1..] == [t];
    if d in db.served { assert Served(db, d)[1..] == [db.served[d]]; }
  }

  /** A client that waits through `k` consecutive claims among at most `k` clients is served
      by one of them. */
  lemma ServedWithinK(run: seq<Turn>, gaps: seq<seq<Op>>, a: nat, k: nat, clients: set<string>, d: string)
    requires ClaimRun(run, gaps) && k > 0 && a + k <= |run|
    requires |clients| <= k && d in clients
    requires forall m | a <= m < a + k :: Waits(run[m].db, run[m].now, d)
    requires forall m | a <= m < a + k :: run[m].id in run[m].db.jobs && Client(run[m]) in clients
    ensures exists m :: a <= m < a + k && ServedAt(run, m, d)
  {
    if forall m | a <= m < a + k :: !ServedAt(run, m, d) {
      var i, j, c := SomeoneTwice(run, a, k, clients, d);
      RoundRobin(run, gaps, i, j, c, d);
    }
  }

  /** If d is never served, k claims among fewer than k clients serve one of them twice in a row. */
  lemma SomeoneTwice(run: seq<Turn>, a: nat, k: nat, clients: set<string>, d: string)
    returns (i: nat, j: nat, c: string)
    requires k > 0 && a + k <= |run| && |clients| <= k && d in clients
    requires forall m | a <= m < a + k :: run[m].id in run[m].db.jobs && Client(run[m]) in clients
    requires forall m | a <= m < a + k :: !ServedAt(run, m, d)
    ensures a <= i < j < a + k && c != d && ServedAt(run, i, c) && ServedAt(run, j, c)
    ensures forall m | i < m < j :: !ServedAt(run, m, c)
  {
    var names := seq(k, x requires 0 <= x < k => Client(run[a + x]));
    forall x | 0 <= x < k ensures names[x] in clients - {d} { assert !ServedAt(run, a + x, d); }
    var p, q := Pigeonhole(names, clients - {d});
    c, j := names[q], a + q;
    assert ServedAt(run, a + p, c) && ServedAt(run, j, c);
    i := LastBefore(run, a + p, j, c);
  }

  /** The last claim of c before j, given one at i. */
  lemma {:induction false} LastBefore(run: seq<Turn>, i: nat, j: nat, c: string) returns (l: nat)
    requires i < j < |run| && ServedAt(run, i, c)
    ensures i <= l < j && ServedAt(run, l, c) && forall m | l < m < j :: !ServedAt(run, m, c)
  {
    l := j - 1;
    while !ServedAt(run, l, c)
      invariant i <= l < j && forall m | l < m < j :: !ServedAt(run, m, c)
      decreases l
    {
      l := l - 1;
    }
  }

  /** More names than there are clients: two are the same. */
  lemma {:induction false} Pigeonhole(names: seq<string>, clients: set<string>) returns (p: nat, q: nat)
    requires |names| > |clients| && forall x | 0 <= x < |names| :: names[x] in clients
    ensures p < q < |names| && names[p] == names[q]
  {
    var last := |names| - 1;
    if exists x :: 0 <= x < last && names[x] == names[last] {
      p :| 0 <= p < last && names[p] == names[last];
      q := last;
    } else {
      p, q := Pigeonhole(names[..last], clients - {names[last]});
    }
  }
}
