/**
 Recurring runs: schedulers read due schedules, create the run under a key that names the due
 time and then advance the schedule with a compare-and-set. Every store call is one step, any
 number of schedulers interleave and any of them may stop between two steps.
 */
module Schedules {
  import opened Wrappers
  import opened Decimal
  import JobTable
  import DueOrder

  type JobId = JobTable.JobId

  /** What never changes about a schedule. */
  datatype Spec = Spec(client: string, target: string, payload: string)

  /** A job as far as idempotency looks at it; the empty key is no key. */
  datatype Row = Row(client: string, key: string, target: string, payload: string)

  /** One due time of one schedule. */
  datatype Due = Due(sid: string, at: nat)

  /** A scheduler at work on one due schedule: its snapshot, the time of its tick and, once created, the run. */
  datatype Task = Task(due: Due, now: nat, job: Option<JobId>)

  /**
   Schedules and jobs as the store holds them, the schedulers at work, and for the record: what
   every schedule ever stored is, every job id ever used, every run created, every advance made.
   */
  datatype State = State(
    now: nat,
    scheds: map<string, nat>,
    jobs: map<JobId, Row>,
    tasks: map<nat, Task>,
    specs: map<string, Spec>,
    ids: set<JobId>,
    made: multiset<Due>,
    advanced: multiset<Due>)

  /** The cron expression's next due time after a time, and RFC 3339 texts of whole seconds. */
  datatype Config = Config(next: (string, nat) -> nat, stamp: nat -> string)

  predicate WholeSecond(t: nat) {
    t % 1000 == 0
  }

  ghost predicate Sane(c: Config) {
    && (forall sid, t :: c.next(sid, t) > t && WholeSecond(c.next(sid, t)))
    && forall t, u | c.stamp(t) == c.stamp(u) :: t == u
  }

  /** What Next means: the first due time after a time, so every later due time is no earlier. */
  ghost predicate FirstAfter(c: Config, sid: string) {
    forall t, u | c.next(sid, u) > t :: c.next(sid, t) <= c.next(sid, u)
  }

  /** Such configurations exist: a schedule due every second. */
  lemma EverySecondIsSane() returns (c: Config)
    ensures Sane(c) && forall sid :: FirstAfter(c, sid)
  {
    c := Config((sid, t) => (t / 1000 + 1) * 1000, NatText);
    forall t: nat, u: nat | c.stamp(t) == c.stamp(u) ensures t == u {
      NatTextParses(t);
      NatTextParses(u);
    }
  }

  // ----- Run keys ------------------------------------------------------------------------------

  const RUN_PREFIX := "schedule:"

  function RunKey(c: Config, d: Due): string {
    RUN_PREFIX + (d.sid + [':'] + c.stamp(d.at / 1000))
  }

  lemma ColonInside(a: string, b: string, x: string, y: string)
    requires a + [':'] + x == b + [':'] + y
    ensures |a| < |b| ==> ':' in b
  {
    if |a| < |b| { assert (a + [':'] + x)[|a|] == (b + [':'] + y)[|a|] == b[|a|]; }
  }

  lemma SplitsAtColon(a: string, b: string, x: string, y: string)
    requires ':' !in a && ':' !in b && a + [':'] + x == b + [':'] + y
    ensures a == b && x == y
  {
    var s, t := a + [':'] + x, b + [':'] + y;
    ColonInside(a, b, x, y);
    ColonInside(b, a, y, x);
    assert s[..|a|] == a && t[..|b|] == b && s[|a| + 1..] == x && t[|b| + 1..] == y;
  }

  /** A run key names its schedule and its due time. */
  lemma RunKeyIsInjective(c: Config, d: Due, e: Due)
    requires Sane(c) && ':' !in d.sid && ':' !in e.sid && WholeSecond(d.at) && WholeSecond(e.at)
    requires RunKey(c, d) == RunKey(c, e)
    ensures d == e
  {
    var x, y := d.sid + [':'] + c.stamp(d.at / 1000), e.sid + [':'] + c.stamp(e.at / 1000);
    assert (RUN_PREFIX + x)[|RUN_PREFIX|..] == x && (RUN_PREFIX + y)[|RUN_PREFIX|..] == y;
    SplitsAtColon(d.sid, e.sid, c.stamp(d.at / 1000), c.stamp(e.at / 1000));
  }

  lemma RunKeyStarts(c: Config, d: Due)
    ensures StartsWith(RunKey(c, d), RUN_PREFIX) && RunKey(c, d) != ""
  {
  }

  // ----- Steps ------------------------------------------------------------------------------------

  datatype Step =
    | Tick(now: nat)
    | Read(k: nat, sid: string)
    | Create(k: nat, id: JobId)
    | Advance(k: nat)
    | Crash(k: nat)
    | Submit(id: JobId, row: Row)
    | Prune(ids: set<JobId>)
    | Add(sid: string, spec: Spec, first: nat)
    | Drop(sid: string)

  /** A job of this client under this key. */
  predicate Holds(jobs: map<JobId, Row>, id: JobId, client: string, key: string) {
    id in jobs && jobs[id].client == client && jobs[id].key == key
  }

  ghost predicate Taken(jobs: map<JobId, Row>, client: string, key: string) {
    key != "" && exists id :: Holds(jobs, id, client, key)
  }

  function RunRow(c: Config, s: State, d: Due): Row
    requires d.sid in s.specs
  {
    Row(s.specs[d.sid].client, RunKey(c, d), s.specs[d.sid].target, s.specs[d.sid].payload)
  }

  /** A scheduler holds a snapshot of this due time and has not asked for its run yet. */
  predicate Wants(s: State, k: nat, d: Due) {
    k in s.tasks && s.tasks[k].due == d && s.tasks[k].job.None?
  }

  /** Somebody may still ask for this run. */
  ghost predicate Open(s: State, d: Due) {
    (d.sid in s.scheds && s.scheds[d.sid] == d.at) || exists k :: Wants(s, k, d)
  }

  /** The run is in the job table. */
  ghost predicate Stored(c: Config, s: State, d: Due) {
    d.sid in s.specs && exists id :: id in s.jobs && s.jobs[id] == RunRow(c, s, d)
  }

  /** Runs stay until no scheduler can ask for them again: the schedule moved on and nobody is about to. */
  ghost predicate Spared(c: Config, s: State, ids: set<JobId>) {
    forall d, id | Open(s, d) && d.sid in s.specs && id in s.jobs && s.jobs[id] == RunRow(c, s, d) :: id !in ids
  }

  ghost predicate Enabled(c: Config, s: State, x: Step) {
    match x
    case Tick(now) => now >= s.now
    case Read(k, sid) => k !in s.tasks && sid in s.scheds && s.scheds[sid] <= s.now
    case Create(k, id) => k in s.tasks && s.tasks[k].job.None? && id !in s.ids && s.tasks[k].due.sid in s.specs
    case Advance(k) => k in s.tasks && s.tasks[k].job.Some?
    case Crash(k) => k in s.tasks
    case Submit(id, row) => id !in s.ids && !StartsWith(row.key, RUN_PREFIX) && !Taken(s.jobs, row.client, row.key)
    case Prune(ids) => true
    case Add(sid, spec, first) => sid !in s.specs && ':' !in sid && WholeSecond(first)
    case Drop(sid) => sid in s.scheds
  }

  /** The due time after this run: after the tick, and after the run itself. */
  function Following(c: Config, t: Task): nat {
    if c.next(t.due.sid, t.now) <= t.due.at then c.next(t.due.sid, t.due.at) else c.next(t.due.sid, t.now)
  }

  /** CreateJob under the run key: a stored run is replayed, a different request under the key is refused. */
  ghost function Created(c: Config, s: State, k: nat, id: JobId): State
    requires k in s.tasks && s.tasks[k].due.sid in s.specs
  {
    var t := s.tasks[k];
    var row := RunRow(c, s, t.due);
    if !Taken(s.jobs, row.client, row.key) then
      s.(jobs := s.jobs[id := row], ids := s.ids + {id}, made := s.made + multiset{t.due},
         tasks := s.tasks[k := t.(job := Some(id))])
    else
      var prior :| Holds(s.jobs, prior, row.client, row.key);
      if s.jobs[prior] == row then s.(tasks := s.tasks[k := t.(job := Some(prior))]) else s.(tasks := s.tasks - {k})
  }

  /** AdvanceSchedule: a compare-and-set on the due time. */
  function Advanced(c: Config, s: State, k: nat): State
    requires k in s.tasks
  {
    var t := s.tasks[k];
    if t.due.sid in s.scheds && s.scheds[t.due.sid] == t.due.at then
      s.(scheds := s.scheds[t.due.sid := Following(c, t)], advanced := s.advanced + multiset{t.due},
         tasks := s.tasks - {k})
    else
      s.(tasks := s.tasks - {k})
  }

  ghost function Next(c: Config, s: State, x: Step): State
    requires Enabled(c, s, x)
  {
    match x
    case Tick(now) => s.(now := now)
    case Read(k, sid) => s.(tasks := s.tasks[k := Task(Due(sid, s.scheds[sid]), s.now, None)])
    case Create(k, id) => Created(c, s, k, id)
    case Advance(k) => Advanced(c, s, k)
    case Crash(k) => s.(tasks := s.tasks - {k})
    case Submit(id, row) => s.(jobs := s.jobs[id := row], ids := s.ids + {id})
    case Prune(ids) => s.(jobs := s.jobs - ids)
    case Add(sid, spec, first) => s.(specs := s.specs[sid := spec], scheds := s.scheds[sid := first])
    case Drop(sid) => s.(scheds := s.scheds - {sid})
  }

  // ----- The invariant -------------------------------------------------------------------------------

  /** A due time of a known schedule that has not passed it yet by more than its current due time. */
  predicate Known(s: State, d: Due) {
    && d.sid in s.specs && ':' !in d.sid && WholeSecond(d.at)
    && (d.sid in s.scheds ==> d.at <= s.scheds[d.sid])
  }

  predicate SchedsOk(s: State) {
    forall sid | sid in s.scheds :: sid in s.specs && ':' !in sid && WholeSecond(s.scheds[sid])
  }

  predicate TaskOk(s: State, t: Task) {
    Known(s, t.due) && (t.job.Some? ==> s.made[t.due] == 1)
  }

  predicate TasksOk(s: State) {
    forall k | k in s.tasks :: TaskOk(s, s.tasks[k])
  }

  /** Jobs under run keys are runs, created once; no key is used twice. */
  ghost predicate JobOk(c: Config, s: State, id: JobId)
    requires id in s.jobs
  {
    && id in s.ids
    && (StartsWith(s.jobs[id].key, RUN_PREFIX) ==> exists d :: IsRun(c, s, s.jobs[id], d))
  }

  ghost predicate IsRun(c: Config, s: State, row: Row, d: Due) {
    d.sid in s.specs && ':' !in d.sid && WholeSecond(d.at) && row == RunRow(c, s, d) && s.made[d] == 1
  }

  ghost predicate JobsOk(c: Config, s: State) {
    forall id | id in s.jobs :: JobOk(c, s, id)
  }

  /** At most one run per due time, and it is stored as long as anybody may ask for it. */
  ghost predicate DueOk(c: Config, s: State, d: Due) {
    && s.made[d] <= 1 && s.advanced[d] <= 1
    && (s.made[d] == 1 ==> Known(s, d) && (Open(s, d) ==> Stored(c, s, d)))
    && (s.advanced[d] == 1 ==> s.made[d] == 1 && (d.sid in s.scheds ==> d.at < s.scheds[d.sid]))
  }

  ghost predicate DuesOk(c: Config, s: State) {
    forall d :: DueOk(c, s, d)
  }

  ghost predicate Inv(c: Config, s: State) {
    SchedsOk(s) && TasksOk(s) && JobsOk(c, s) && DuesOk(c, s)
  }

  ghost predicate Start(s: State) {
    s.scheds == map[] && s.jobs == map[] && s.tasks == map[] && s.specs == map[]
    && s.made == multiset{} && s.advanced == multiset{}
  }

  // ----- Every step keeps it ------------------------------------------------------------------------

  lemma ReadKeepsInv(c: Config, s: State, k: nat, sid: string)
    requires Inv(c, s) && Enabled(c, s, Read(k, sid))
    ensures Inv(c, Next(c, s, Read(k, sid)))
  {
    var s' := Next(c, s, Read(k, sid));
    forall d ensures DueOk(c, s', d) {
      assert DueOk(c, s, d);
      OpenBefore(s, s', k, d);
      StoredSame(c, s, s', d);
    }
    JobsSame(c, s, s');
  }

  /** A new snapshot was a current due time. */
  lemma OpenBefore(s: State, s': State, k: nat, d: Due)
    requires s'.scheds == s.scheds && k in s'.tasks && s'.tasks == s.tasks[k := s'.tasks[k]]
    requires var t := s'.tasks[k].due; Open(s, t)
    ensures Open(s', d) ==> Open(s, d)
  {
    if Open(s', d) && !(d.sid in s.scheds && s.scheds[d.sid] == d.at) {
      var k' :| Wants(s', k', d);
      assert k' != k ==> Wants(s, k', d);
    }
  }

  /** The scheduler's snapshot is the same and a created run stays created. */
  predicate Follows(s: State, s': State, k: nat) {
    k in s.tasks && k in s'.tasks && s'.tasks[k].due == s.tasks[k].due
    && (s'.tasks[k].job.None? ==> s.tasks[k].job.None?)
  }

  /** Fewer snapshots, fewer open due times. */
  lemma OpenLess(s: State, s': State, d: Due)
    requires forall k | k in s'.tasks :: Follows(s, s', k)
    requires d.sid in s'.scheds && s'.scheds[d.sid] == d.at ==> d.sid in s.scheds && s.scheds[d.sid] == d.at
    ensures Open(s', d) ==> Open(s, d)
  {
    if Open(s', d) && !(d.sid in s'.scheds && s'.scheds[d.sid] == d.at) {
      var k' :| Wants(s', k', d);
      assert Follows(s, s', k') && Wants(s, k', d);
    }
  }

  lemma StoredSame(c: Config, s: State, s': State, d: Due)
    requires s'.jobs == s.jobs && s'.specs == s.specs
    ensures Stored(c, s', d) <==> Stored(c, s, d)
  {
    if Stored(c, s, d) {
      var id :| id in s.jobs && s.jobs[id] == RunRow(c, s, d);
      assert s'.jobs[id] == RunRow(c, s', d);
    }
    if Stored(c, s', d) {
      var id :| id in s'.jobs && s'.jobs[id] == RunRow(c, s', d);
      assert s.jobs[id] == RunRow(c, s, d);
    }
  }

  lemma JobsSame(c: Config, s: State, s': State)
    requires JobsOk(c, s) && s'.specs == s.specs && s'.made == s.made
    requires s'.ids == s.ids && forall id | id in s'.jobs :: id in s.jobs && s'.jobs[id] == s.jobs[id]
    ensures JobsOk(c, s')
  {
    forall id | id in s'.jobs ensures JobOk(c, s', id) {
      assert JobOk(c, s, id);
      if StartsWith(s.jobs[id].key, RUN_PREFIX) {
        var d :| IsRun(c, s, s.jobs[id], d);
        assert IsRun(c, s', s'.jobs[id], d);
      }
    }
  }

  lemma FewerTasksKeepInv(c: Config, s: State, s': State)
    requires Inv(c, s) && s' == s.(tasks := s'.tasks, now := s'.now)
    requires forall k | k in s'.tasks :: Follows(s, s', k) && TaskOk(s', s'.tasks[k])
    ensures Inv(c, s')
  {
    forall d ensures DueOk(c, s', d) {
      assert DueOk(c, s, d);
      OpenLess(s, s', d);
      StoredSame(c, s, s', d);
    }
    JobsSame(c, s, s');
  }

  lemma DropKeepsInv(c: Config, s: State, sid: string)
    requires Inv(c, s)
    ensures Inv(c, s.(scheds := s.scheds - {sid}))
  {
    var s' := s.(scheds := s.scheds - {sid});
    forall k | k in s'.tasks ensures TaskOk(s', s'.tasks[k]) { assert TaskOk(s, s.tasks[k]); }
    forall d ensures DueOk(c, s', d) {
      assert DueOk(c, s, d);
      OpenLess(s, s', d);
      StoredSame(c, s, s', d);
    }
    JobsSame(c, s, s');
  }

  lemma PruneKeepsInv(c: Config, s: State, ids: set<JobId>)
    requires Inv(c, s) && Spared(c, s, ids)
    ensures Inv(c, s.(jobs := s.jobs - ids))
  {
    var s' := s.(jobs := s.jobs - ids);
    forall d ensures DueOk(c, s', d) {
      assert DueOk(c, s, d);
      OpenLess(s, s', d);
      if Open(s, d) && Stored(c, s, d) {
        var id :| id in s.jobs && s.jobs[id] == RunRow(c, s, d);
        assert id in s'.jobs && s'.jobs[id] == RunRow(c, s', d);
      }
    }
    JobsSame(c, s, s');
  }

  lemma SubmitKeepsInv(c: Config, s: State, id: JobId, row: Row)
    requires Inv(c, s) && Enabled(c, s, Submit(id, row))
    ensures Inv(c, Next(c, s, Submit(id, row)))
  {
    var s' := Next(c, s, Submit(id, row));
    forall d ensures DueOk(c, s', d) {
      assert DueOk(c, s, d);
      OpenLess(s, s', d);
      StoredMore(c, s, s', d);
    }
    forall i | i in s'.jobs ensures JobOk(c, s', i) {
      if i != id { JobStays(c, s, s', i); }
    }
  }

  lemma StoredMore(c: Config, s: State, s': State, d: Due)
    requires JobsOk(c, s) && forall id | id in s.jobs :: id in s'.jobs && s'.jobs[id] == s.jobs[id]
    requires forall sid | sid in s.specs :: sid in s'.specs && s'.specs[sid] == s.specs[sid]
    ensures Stored(c, s, d) ==> Stored(c, s', d)
  {
    if Stored(c, s, d) {
      var id :| id in s.jobs && s.jobs[id] == RunRow(c, s, d);
      assert s'.jobs[id] == RunRow(c, s', d);
    }
  }

  lemma JobStays(c: Config, s: State, s': State, id: JobId)
    requires id in s.jobs && JobOk(c, s, id) && id in s'.jobs && s'.jobs[id] == s.jobs[id] && s.ids <= s'.ids
    requires forall sid | sid in s.specs :: sid in s'.specs && s'.specs[sid] == s.specs[sid]
    requires forall d | s.made[d] == 1 :: s'.made[d] == 1
    ensures JobOk(c, s', id)
  {
    if StartsWith(s.jobs[id].key, RUN_PREFIX) {
      var d :| IsRun(c, s, s.jobs[id], d);
      assert IsRun(c, s', s'.jobs[id], d);
    }
  }

  lemma AddKeepsInv(c: Config, s: State, sid: string, spec: Spec, first: nat)
    requires Inv(c, s) && Enabled(c, s, Add(sid, spec, first))
    ensures Inv(c, Next(c, s, Add(sid, spec, first)))
  {
    var s' := Next(c, s, Add(sid, spec, first));
    forall k | k in s'.tasks ensures TaskOk(s', s'.tasks[k]) { assert TaskOk(s, s.tasks[k]); }
    forall d ensures DueOk(c, s', d) {
      assert DueOk(c, s, d);
      if d.sid != sid { OpenLess(s, s', d); }
      StoredMore(c, s, s', d);
    }
    forall id | id in s'.jobs ensures JobOk(c, s', id) { JobStays(c, s, s', id); }
  }

  /** A run is created only when it never was. */
  lemma FirstRun(c: Config, s: State, k: nat)
    requires Inv(c, s) && k in s.tasks && s.tasks[k].job.None? && s.tasks[k].due.sid in s.specs
    requires var row := RunRow(c, s, s.tasks[k].due); !Taken(s.jobs, row.client, row.key)
    ensures s.made[s.tasks[k].due] == 0 && s.advanced[s.tasks[k].due] == 0
  {
    var d := s.tasks[k].due;
    var row := RunRow(c, s, d);
    RunKeyStarts(c, d);
    assert DueOk(c, s, d);
    assert Wants(s, k, d);
    if s.made[d] == 1 {
      var id :| id in s.jobs && s.jobs[id] == row;
      assert Holds(s.jobs, id, row.client, row.key);
    }
  }

  lemma InsertKeepsInv(c: Config, s: State, k: nat, id: JobId)
    requires Sane(c) && Inv(c, s) && Enabled(c, s, Create(k, id))
    requires var row := RunRow(c, s, s.tasks[k].due); !Taken(s.jobs, row.client, row.key)
    ensures Inv(c, Created(c, s, k, id))
  {
    var s', d0 := Created(c, s, k, id), s.tasks[k].due;
    FirstRun(c, s, k);
    assert TaskOk(s, s.tasks[k]);
    forall i | i in s'.tasks ensures TaskOk(s', s'.tasks[i]) { assert i in s.tasks && TaskOk(s, s.tasks[i]); }
    forall d ensures DueOk(c, s', d) {
      assert DueOk(c, s, d);
      OpenLess(s, s', d);
      StoredMore(c, s, s', d);
      if d == d0 { assert s'.jobs[id] == RunRow(c, s', d); }
    }
    forall i | i in s'.jobs ensures JobOk(c, s', i) {
      if i == id { assert IsRun(c, s', s'.jobs[id], d0); } else { JobStays(c, s, s', i); }
    }
  }

  /** A job found under a run key is that run. */
  lemma FoundIsRun(c: Config, s: State, d: Due, id: JobId)
    requires Sane(c) && Inv(c, s) && Known(s, d) && Holds(s.jobs, id, RunRow(c, s, d).client, RunKey(c, d))
    ensures s.jobs[id] == RunRow(c, s, d) && s.made[d] == 1
  {
    RunKeyStarts(c, d);
    assert JobOk(c, s, id);
    var e :| IsRun(c, s, s.jobs[id], e);
    RunKeyIsInjective(c, d, e);
  }

  lemma ReplayKeepsInv(c: Config, s: State, k: nat, id: JobId)
    requires Sane(c) && Inv(c, s) && Enabled(c, s, Create(k, id))
    requires var row := RunRow(c, s, s.tasks[k].due); Taken(s.jobs, row.client, row.key)
    ensures Inv(c, Created(c, s, k, id))
    ensures exists i :: i in s.jobs && Created(c, s, k, id) == s.(tasks := s.tasks[k := s.tasks[k].(job := Some(i))])
  {
    var s', t := Created(c, s, k, id), s.tasks[k];
    var row := RunRow(c, s, t.due);
    assert TaskOk(s, t);
    var prior :| Holds(s.jobs, prior, row.client, row.key) && s' ==
      if s.jobs[prior] == row then s.(tasks := s.tasks[k := t.(job := Some(prior))]) else s.(tasks := s.tasks - {k});
    FoundIsRun(c, s, t.due, prior);
    forall i | i in s'.tasks ensures TaskOk(s', s'.tasks[i]) && Follows(s, s', i) {
      assert TaskOk(s, s.tasks[i]);
    }
    FewerTasksKeepInv(c, s, s');
  }

  lemma AdvanceKeepsInv(c: Config, s: State, k: nat)
    requires Sane(c) && Inv(c, s) && Enabled(c, s, Advance(k))
    ensures Inv(c, Advanced(c, s, k))
  {
    var s', t := Advanced(c, s, k), s.tasks[k];
    assert TaskOk(s, t) && DueOk(c, s, t.due);
    forall i | i in s'.tasks ensures TaskOk(s', s'.tasks[i]) { assert i in s.tasks && TaskOk(s, s.tasks[i]); }
    forall d ensures DueOk(c, s', d) {
      assert DueOk(c, s, d);
      LaterIsNew(c, s, k, d);
      StoredSame(c, s, s', d);
    }
    JobsSame(c, s, s');
  }

  /** The due time a schedule moves to was never created before, and no other opens. */
  lemma LaterIsNew(c: Config, s: State, k: nat, d: Due)
    requires Sane(c) && Inv(c, s) && k in s.tasks
    ensures Open(Advanced(c, s, k), d) && s.made[d] == 1 ==> Open(s, d)
  {
    var s', t := Advanced(c, s, k), s.tasks[k];
    assert DueOk(c, s, d);
    if s'.scheds == s.scheds || d.sid != t.due.sid || d.at != Following(c, t) { OpenLess(s, s', d); }
  }

  lemma StepKeepsInv(c: Config, s: State, x: Step)
    requires Sane(c) && Inv(c, s) && Enabled(c, s, x) && (x.Prune? ==> Spared(c, s, x.ids))
    ensures Inv(c, Next(c, s, x))
  {
    match x
    case Tick(now) => {
      forall k | k in s.tasks ensures TaskOk(s.(now := now), s.tasks[k]) { assert TaskOk(s, s.tasks[k]); }
      FewerTasksKeepInv(c, s, Next(c, s, x));
    }
    case Read(k, sid) => ReadKeepsInv(c, s, k, sid);
    case Create(k, id) => {
      var row := RunRow(c, s, s.tasks[k].due);
      if Taken(s.jobs, row.client, row.key) { ReplayKeepsInv(c, s, k, id); } else { InsertKeepsInv(c, s, k, id); }
    }
    case Advance(k) => AdvanceKeepsInv(c, s, k);
    case Crash(k) => {
      var s' := Next(c, s, x);
      forall i | i in s'.tasks ensures TaskOk(s', s'.tasks[i]) { assert TaskOk(s, s.tasks[i]); }
      FewerTasksKeepInv(c, s, s');
    }
    case Submit(id, row) => SubmitKeepsInv(c, s, id, row);
    case Prune(ids) => PruneKeepsInv(c, s, ids);
    case Add(sid, spec, first) => AddKeepsInv(c, s, sid, spec, first);
    case Drop(sid) => DropKeepsInv(c, s, sid);
  }

  // ----- Whole runs -----------------------------------------------------------------------------------

  /** The states a run passes through, retention sparing what is still open. */
  ghost predicate Run(c: Config, states: seq<State>, steps: seq<Step>) {
    && |states| == |steps| + 1
    && forall i | 0 <= i < |steps| :: Takes(c, states[i], steps[i], states[i + 1])
  }

  ghost predicate Takes(c: Config, s: State, x: Step, s': State) {
    Enabled(c, s, x) && (x.Prune? ==> Spared(c, s, x.ids)) && s' == Next(c, s, x)
  }

  lemma {:induction false} RunsKeepInv(c: Config, states: seq<State>, steps: seq<Step>, n: nat)
    requires Sane(c) && Run(c, states, steps) && Start(states[0]) && n < |states|
    ensures Inv(c, states[n])
  {
    if n > 0 {
      RunsKeepInv(c, states, steps, n - 1);
      assert Takes(c, states[n - 1], steps[n - 1], states[n]);
      StepKeepsInv(c, states[n - 1], steps[n - 1]);
    }
  }

  /** Over every run a due time yields at most one job and at most one advance, and an advanced one exactly one job. */
  lemma OneRunPerDueTime(c: Config, states: seq<State>, steps: seq<Step>, n: nat, d: Due)
    requires Sane(c) && Run(c, states, steps) && Start(states[0]) && n < |states|
    ensures states[n].made[d] <= 1 && states[n].advanced[d] <= 1
    ensures states[n].advanced[d] == 1 ==> states[n].made[d] == 1
  {
    RunsKeepInv(c, states, steps, n);
    assert DueOk(c, states[n], d);
  }

  /** An advance moves the schedule past its due time and past the tick that found it: missed times collapse. */
  lemma AdvanceMovesOn(c: Config, s: State, k: nat)
    requires Sane(c) && k in s.tasks
    requires var d := s.tasks[k].due; d.sid in s.scheds && s.scheds[d.sid] == d.at
    ensures var d, s' := s.tasks[k].due, Advanced(c, s, k);
            && s'.scheds[d.sid] > d.at && s'.scheds[d.sid] > s.tasks[k].now
            && (c.next(d.sid, s.tasks[k].now) > d.at ==> s'.scheds[d.sid] == c.next(d.sid, s.tasks[k].now))
            && (c.next(d.sid, s.tasks[k].now) <= d.at ==> s'.scheds[d.sid] == c.next(d.sid, d.at))
            && s'.advanced == s.advanced + multiset{d} && s'.scheds.Keys == s.scheds.Keys
            && forall sid | sid in s.scheds && sid != d.sid :: s'.scheds[sid] == s.scheds[sid]
  {
    assert c.next(s.tasks[k].due.sid, s.tasks[k].now) > s.tasks[k].now;
  }

  // ----- No due time after the tick is skipped ------------------------------------------------------------

  /** A snapshot was due when it was taken. */
  ghost predicate WereDue(s: State) {
    forall k | k in s.tasks :: s.tasks[k].due.at <= s.tasks[k].now
  }

  lemma {:induction false} SnapshotsWereDue(c: Config, states: seq<State>, steps: seq<Step>, n: nat)
    requires Run(c, states, steps) && Start(states[0]) && n < |states|
    ensures WereDue(states[n])
  {
    if n > 0 {
      SnapshotsWereDue(c, states, steps, n - 1);
      assert Takes(c, states[n - 1], steps[n - 1], states[n]);
      StepKeepsDue(c, states[n - 1], steps[n - 1]);
    }
  }

  lemma StepKeepsDue(c: Config, s: State, x: Step)
    requires Enabled(c, s, x) && WereDue(s)
    ensures WereDue(Next(c, s, x))
  {
    match x
    case Create(k, id) => {
      var s' := Created(c, s, k, id);
      forall i | i in s'.tasks ensures s'.tasks[i].due.at <= s'.tasks[i].now { assert i in s.tasks; }
    }
    case _ =>
  }

  /** At step n a scheduler moves the schedule on. */
  predicate Advances(states: seq<State>, steps: seq<Step>, n: nat, sid: string) {
    && n < |steps| < |states| && steps[n].Advance? && steps[n].k in states[n].tasks
    && var d := states[n].tasks[steps[n].k].due;
       d.sid == sid && sid in states[n].scheds && states[n].scheds[sid] == d.at
  }

  /** Over every run: an advance moves the schedule to the first due time after the tick. The times up to the tick
      collapse into the one run, and none after it is skipped. */
  lemma NoDueTimeSkipped(c: Config, states: seq<State>, steps: seq<Step>, n: nat, sid: string)
    requires Sane(c) && FirstAfter(c, sid) && Run(c, states, steps) && Start(states[0])
    requires Advances(states, steps, n, sid)
    ensures sid in states[n + 1].scheds
    ensures var tick := states[n].tasks[steps[n].k].now;
            && states[n + 1].scheds[sid] == c.next(sid, tick)
            && forall u :: !(tick < c.next(sid, u) < states[n + 1].scheds[sid])
  {
    assert Takes(c, states[n], steps[n], states[n + 1]);
    SnapshotsWereDue(c, states, steps, n);
    var t := states[n].tasks[steps[n].k];
    assert t.due.at <= t.now < c.next(sid, t.now);
    AdvanceMovesOn(c, states[n], steps[n].k);
  }

  /** No step moves a schedule back. */
  lemma {:induction false} NextRunNeverFalls(c: Config, states: seq<State>, steps: seq<Step>, m: nat, n: nat,
                                             sid: string)
    requires Sane(c) && Run(c, states, steps) && Start(states[0]) && m <= n < |states|
    requires sid in states[m].scheds && sid in states[n].scheds
    ensures states[m].scheds[sid] <= states[n].scheds[sid]
    decreases n - m
  {
    if m < n {
      StillThere(c, states, steps, m, n - 1, sid);
      NextRunNeverFalls(c, states, steps, m, n - 1, sid);
      LastStepNeverFalls(c, states, steps, n - 1, sid);
    }
  }

  lemma LastStepNeverFalls(c: Config, states: seq<State>, steps: seq<Step>, n: nat, sid: string)
    requires Sane(c) && Run(c, states, steps) && Start(states[0]) && n < |steps|
    requires sid in states[n].scheds && sid in states[n + 1].scheds
    ensures states[n].scheds[sid] <= states[n + 1].scheds[sid]
  {
    RunsKeepInv(c, states, steps, n);
    assert Takes(c, states[n], steps[n], states[n + 1]);
    StepNeverFalls(c, states[n], steps[n], sid);
  }

  /** A schedule once dropped does not come back. */
  lemma {:induction false} StillThere(c: Config, states: seq<State>, steps: seq<Step>, m: nat, n: nat, sid: string)
    requires Sane(c) && Run(c, states, steps) && Start(states[0]) && m <= n && n + 1 < |states|
    requires sid in states[m].scheds && sid in states[n + 1].scheds
    ensures sid in states[n].scheds
  {
    RunsKeepInv(c, states, steps, m);
    SpecsStay(c, states, steps, m, n, sid);
    assert Takes(c, states[n], steps[n], states[n + 1]);
  }

  lemma {:induction false} SpecsStay(c: Config, states: seq<State>, steps: seq<Step>, m: nat, n: nat, sid: string)
    requires Run(c, states, steps) && m <= n < |states| && sid in states[m].specs
    ensures sid in states[n].specs
    decreases n - m
  {
    if m < n {
      SpecsStay(c, states, steps, m, n - 1, sid);
      assert Takes(c, states[n - 1], steps[n - 1], states[n]);
    }
  }

  lemma StepNeverFalls(c: Config, s: State, x: Step, sid: string)
    requires Sane(c) && Enabled(c, s, x) && sid in s.scheds && sid in Next(c, s, x).scheds
    requires SchedsOk(s)
    ensures s.scheds[sid] <= Next(c, s, x).scheds[sid]
  {
    if x.Advance? && s.tasks[x.k].due.sid == sid && s.scheds[sid] == s.tasks[x.k].due.at { AdvanceMovesOn(c, s, x.k); }
  }

  // ----- Why retention has to wait for the schedule ------------------------------------------------------

  lemma FreshNumber(used: set<nat>) returns (n: nat)
    ensures n !in used
  {
    n := 0;
    var left := used;
    while n in used
      invariant left <= used && forall i | i in used && i >= n :: i in left
      decreases left
    {
      left := left - {n};
      n := n + 1;
    }
  }

  lemma FreshId(used: set<JobId>) returns (id: JobId)
    ensures id !in used
  {
    var n, left := 0, used;
    while NatText(n) in used
      invariant left <= used && forall i: nat | NatText(i) in used && i >= n :: NatText(i) in left
      decreases left
    {
      forall i: nat | NatText(i) == NatText(n) ensures i == n {
        NatTextParses(i);
        NatTextParses(n);
      }
      left := left - {NatText(n)};
      n := n + 1;
    }
    id := NatText(n);
  }

  /** The run is gone from the job table. */
  ghost predicate Gone(c: Config, s: State, d: Due) {
    d.sid in s.specs && !Taken(s.jobs, RunRow(c, s, d).client, RunKey(c, d))
  }

  /** A scheduler about to ask for a run that is gone creates it. */
  lemma WantedIsCreated(c: Config, s: State, k: nat, d: Due) returns (x: Step)
    requires Wants(s, k, d) && Gone(c, s, d)
    ensures Enabled(c, s, x) && !x.Prune? && Next(c, s, x).made == s.made + multiset{d}
  {
    var id := FreshId(s.ids);
    x := Create(k, id);
  }

  /** Once the run of an open due time is pruned, a run of the system creates it a second time: sparing open
      runs is necessary. */
  lemma PrunedRunComesBack(c: Config, s: State, d: Due) returns (states: seq<State>, steps: seq<Step>)
    requires s.made[d] == 1 && Open(s, d) && Gone(c, s, d)
    ensures Run(c, states, steps) && states[0] == s && states[|steps|].made[d] == 2
    ensures forall i | 0 <= i < |steps| :: !steps[i].Prune?
  {
    if exists k :: Wants(s, k, d) {
      var k :| Wants(s, k, d);
      var x := WantedIsCreated(c, s, k, d);
      steps, states := [x], [s, Next(c, s, x)];
      assert Takes(c, s, x, Next(c, s, x));
    } else {
      var now := if s.now < d.at then d.at else s.now;
      var s1 := Next(c, s, Tick(now));
      var k := FreshNumber(s.tasks.Keys);
      var s2 := Next(c, s1, Read(k, d.sid));
      assert Wants(s2, k, d) && Gone(c, s2, d);
      var x := WantedIsCreated(c, s2, k, d);
      steps, states := [Tick(now), Read(k, d.sid), x], [s, s1, s2, Next(c, s2, x)];
      assert Takes(c, s, Tick(now), s1) && Takes(c, s1, Read(k, d.sid), s2) && Takes(c, s2, x, Next(c, s2, x));
    }
  }

  /** A scheduler that stops between creating a run and advancing the schedule leaves no snapshot, yet the due
      time is open. */
  lemma CrashLeavesItOpen(c: Config, s: State, k: nat)
    requires Inv(c, s) && k in s.tasks && s.tasks[k].job.Some?
    requires var d := s.tasks[k].due; d.sid in s.scheds && s.scheds[d.sid] == d.at
    ensures var s', d := Next(c, s, Crash(k)), s.tasks[k].due; k !in s'.tasks && s'.made[d] == 1 && Open(s', d)
  {
    assert TaskOk(s, s.tasks[k]);
  }

  /** A run in which retention spares nothing. */
  ghost predicate LooseRun(c: Config, states: seq<State>, steps: seq<Step>) {
    && |states| == |steps| + 1 && Start(states[0])
    && forall i | 0 <= i < |steps| :: LooselyTakes(c, states[i], steps[i], states[i + 1])
  }

  ghost predicate LooselyTakes(c: Config, s: State, x: Step, s': State) {
    Enabled(c, s, x) && s' == Next(c, s, x)
  }

  const NOON := Due("s", 0)
  const DAILY := Spec("c", "t", "")

  /** The one schedule, due at time 0. */
  function Scheduled(c: Config, jobs: set<JobId>, tasks: map<nat, Task>, ids: set<JobId>, made: multiset<Due>): State {
    State(0, map["s" := 0], map id | id in jobs :: Row("c", RunKey(c, NOON), "t", ""),
          tasks, map["s" := DAILY], ids, made, multiset{})
  }

  /** Reading the schedule and creating its run when no run is stored. */
  lemma ReadAndCreate(c: Config, ids: set<JobId>, made: multiset<Due>, id: JobId)
    requires id !in ids
    ensures var idle, read := Scheduled(c, {}, map[], ids, made),
                Scheduled(c, {}, map[0 := Task(NOON, 0, None)], ids, made);
            var done := Scheduled(c, {id}, map[0 := Task(NOON, 0, Some(id))], ids + {id}, made + multiset{NOON});
            LooselyTakes(c, idle, Read(0, "s"), read) && LooselyTakes(c, read, Create(0, id), done)
  {
    var read := Scheduled(c, {}, map[0 := Task(NOON, 0, None)], ids, made);
    var done := Scheduled(c, {id}, map[0 := Task(NOON, 0, Some(id))], ids + {id}, made + multiset{NOON});
    assert map[0 := Task(NOON, 0, None)] == map[][0 := Task(NOON, 0, None)];
    assert !Taken(read.jobs, "c", RunKey(c, NOON));
    assert read.jobs[id := RunRow(c, read, NOON)] == done.jobs;
    assert read.tasks[0 := Task(NOON, 0, Some(id))] == done.tasks;
  }

  lemma StopAndPrune(c: Config, id: JobId)
    ensures var done := Scheduled(c, {id}, map[0 := Task(NOON, 0, Some(id))], {id}, multiset{NOON});
            var stopped, pruned := Scheduled(c, {id}, map[], {id}, multiset{NOON}),
                Scheduled(c, {}, map[], {id}, multiset{NOON});
            && LooselyTakes(c, done, Crash(0), stopped) && LooselyTakes(c, stopped, Prune({id}), pruned)
            && !Spared(c, stopped, {id}) && stopped.tasks == map[]
  {
    var done := Scheduled(c, {id}, map[0 := Task(NOON, 0, Some(id))], {id}, multiset{NOON});
    var stopped, pruned := Scheduled(c, {id}, map[], {id}, multiset{NOON}),
        Scheduled(c, {}, map[], {id}, multiset{NOON});
    assert done.tasks - {0} == map[];
    assert stopped.jobs - {id} == map[] == pruned.jobs;
    assert Open(stopped, NOON) && stopped.jobs[id] == RunRow(c, stopped, NOON);
  }

  /** From an empty store: a scheduler creates a run and stops, nobody holds a snapshot, retention takes the run, and
      the next scheduler creates it a second time. */
  lemma UnsparedPruneDoubles(c: Config) returns (states: seq<State>, steps: seq<Step>, p: nat)
    ensures LooseRun(c, states, steps) && states[|steps|].made[NOON] == 2
    ensures p < |steps| && steps[p].Prune? && !Spared(c, states[p], steps[p].ids) && states[p].tasks == map[]
    ensures forall i | 0 <= i < |steps| && i != p :: !steps[i].Prune?
  {
    var empty := State(0, map[], map[], map[], map[], {}, multiset{}, multiset{});
    var idle := Scheduled(c, {}, map[], {}, multiset{});
    assert idle.jobs == map[];
    assert LooselyTakes(c, empty, Add("s", DAILY, 0), idle);
    ReadAndCreate(c, {}, multiset{}, "1");
    StopAndPrune(c, "1");
    ReadAndCreate(c, {"1"}, multiset{NOON}, "2");
    assert {} + {"1"} == {"1"} && multiset{} + multiset{NOON} == multiset{NOON};
    states := [ empty, idle, Scheduled(c, {}, map[0 := Task(NOON, 0, None)], {}, multiset{}),
      Scheduled(c, {"1"}, map[0 := Task(NOON, 0, Some("1"))], {"1"}, multiset{NOON}),
      Scheduled(c, {"1"}, map[], {"1"}, multiset{NOON}), Scheduled(c, {}, map[], {"1"}, multiset{NOON}),
      Scheduled(c, {}, map[0 := Task(NOON, 0, None)], {"1"}, multiset{NOON}),
      Scheduled(c, {"2"}, map[0 := Task(NOON, 0, Some("2"))], {"1"} + {"2"}, multiset{NOON} + multiset{NOON}) ];
    steps := [ Add("s", DAILY, 0), Read(0, "s"), Create(0, "1"), Crash(0), Prune({"1"}), Read(0, "s"), Create(0, "2") ];
    p := 4;
  }

  // ----- The job table of the store ---------------------------------------------------------------------------

  function RowOf(req: JobTable.Request): Row {
    Row(req.client, req.key, req.target, req.payload)
  }

  /** The jobs of the store as far as idempotency looks at them. */
  function Rows(db: JobTable.Db): map<JobId, Row> {
    map id | id in db.jobs :: RowOf(db.jobs[id].req)
  }

  /** Creating and pruning jobs here is what the store's transactions do to those rows. */
  lemma StoreAgrees(db: JobTable.Db, id: JobId, req: JobTable.Request, rowid: int, now: JobTable.Time, ids: set<JobId>)
    ensures JobTable.CreateVerdict(db, id, req, 0) == JobTable.MustReplay <==> Taken(Rows(db), req.client, req.key)
    ensures JobTable.CreateVerdict(db, id, req, 0) == JobTable.Created ==>
              Rows(JobTable.Create(db, id, req, rowid, 0, now)) == Rows(db)[id := RowOf(req)]
    ensures Rows(JobTable.Delete(db, ids)) == Rows(db) - ids
  {
    var keyed := JobTable.Keyed(db, req.client, req.key);
    if keyed != {} {
      var k :| k in keyed;
      assert Holds(Rows(db), k, req.client, req.key);
    }
    if Taken(Rows(db), req.client, req.key) {
      var k :| Holds(Rows(db), k, req.client, req.key);
      assert k in keyed;
    }
  }

  // ----- One scheduler at work ---------------------------------------------------------------------------

  const DUE_BATCH := 100

  /** The job of a due time: the schedule's own client, target and payload under a key of schedule and due time. */
  function JobFor(c: Config, spec: Spec, sid: string, at: nat): Row {
    Row(spec.client, "schedule:" + (sid + [':'] + c.stamp(at / 1000)), spec.target, spec.payload)
  }

  /** The store once the run of sid is in. */
  function WithRun(c: Config, s: State, sid: string, id: JobId, taken: bool): State
    requires sid in s.scheds && sid in s.specs
  {
    var d := Due(sid, s.scheds[sid]);
    if taken then s else s.(jobs := s.jobs[id := RunRow(c, s, d)], ids := s.ids + {id}, made := s.made + multiset{d})
  }

  /** The store once it is advanced, too. */
  function AfterTick(c: Config, s: State, sid: string, id: JobId, taken: bool): State
    requires sid in s.scheds && sid in s.specs
  {
    var d, r := Due(sid, s.scheds[sid]), WithRun(c, s, sid, id, taken);
    r.(scheds := s.scheds[sid := Following(c, Task(d, s.now, None))], advanced := s.advanced + multiset{d})
  }

  /** Reading and creating, as two steps of the system. */
  lemma CreateIsRun(c: Config, s: State, k: nat, sid: string, id: JobId, taken: bool) returns (s2: State)
    requires Sane(c) && Inv(c, s) && Enabled(c, s, Read(k, sid)) && id !in s.ids
    requires sid in s.specs && var row := RunRow(c, s, Due(sid, s.scheds[sid]));
             taken == Taken(s.jobs, row.client, row.key)
    ensures Inv(c, s2) && k in s2.tasks && s2.tasks[k].job.Some?
    ensures s2 ==
            WithRun(c, s, sid, id, taken).(tasks := s.tasks[k := Task(Due(sid, s.scheds[sid]), s.now, s2.tasks[k].job)])
  {
    var s1 := Next(c, s, Read(k, sid));
    ReadKeepsInv(c, s, k, sid);
    s2 := Next(c, s1, Create(k, id));
    if taken { ReplayKeepsInv(c, s1, k, id); } else { InsertKeepsInv(c, s1, k, id); }
  }

  /** A whole tick for one schedule keeps the invariant. */
  lemma TickIsRun(c: Config, s: State, sid: string, id: JobId, taken: bool)
    requires Sane(c) && Inv(c, s) && sid in s.scheds && s.scheds[sid] <= s.now && id !in s.ids
    requires sid in s.specs
    requires var row := RunRow(c, s, Due(sid, s.scheds[sid]));
             taken == exists i | i in s.jobs :: Holds(s.jobs, i, row.client, row.key)
    ensures var s' := AfterTick(c, s, sid, id, taken);
            && Inv(c, s') && s'.scheds[sid] == c.next(sid, s.now) > s.now && s'.made[Due(sid, s.scheds[sid])] == 1
            && Stored(c, s', Due(sid, s.scheds[sid]))
  {
    var d := Due(sid, s.scheds[sid]);
    RunKeyStarts(c, d);
    var k := FreshNumber(s.tasks.Keys);
    var s2 := CreateIsRun(c, s, k, sid, id, taken);
    AdvanceKeepsInv(c, s2, k);
    AdvanceMovesOn(c, s2, k);
    assert TaskOk(s2, s2.tasks[k]);
    assert s2.tasks - {k} == s.tasks;
    assert Advanced(c, s2, k) == AfterTick(c, s, sid, id, taken);
    MadeIsStored(c, s2, AfterTick(c, s, sid, id, taken), d);
  }

  /** The run of a current due time is stored, and still is right after the advance. */
  lemma MadeIsStored(c: Config, s: State, s': State, d: Due)
    requires Inv(c, s) && s.made[d] == 1 && d.sid in s.scheds && s.scheds[d.sid] == d.at
    requires s'.jobs == s.jobs && s'.specs == s.specs
    ensures Stored(c, s', d)
  {
    assert DueOk(c, s, d) && Open(s, d);
    StoredSame(c, s, s', d);
  }

  /** The listed schedules are at their next due time, the others where they were. */
  ghost predicate Moved(c: Config, was: map<string, nat>, scheds: map<string, nat>, now: nat, sids: seq<string>) {
    && scheds.Keys == was.Keys
    && forall sid | sid in scheds :: scheds[sid] == if sid in sids then c.next(sid, now) else was[sid]
  }

  lemma MovedNext(c: Config, was: map<string, nat>, mid: map<string, nat>, scheds: map<string, nat>, now: nat,
                  sids: seq<string>, sid: string)
    requires Moved(c, was, mid, now, sids) && scheds.Keys == mid.Keys && sid in scheds
    requires scheds[sid] == c.next(sid, now) && forall o | o in scheds && o != sid :: scheds[o] == mid[o]
    ensures Moved(c, was, scheds, now, sids + [sid])
  {
  }

  /** The store under one scheduler's tick. */
  class Scheduler {
    const c: Config
    var s: State

    constructor (c: Config, s: State)
      ensures this.c == c && this.s == s
    {
      this.c, this.s := c, s;
    }

    /** materialize: create the run that is due and advance the schedule to its next due time after the tick. */
    method Materialize(sid: string, now: nat, id: JobId)
      requires Sane(c) && Inv(c, s) && sid in s.scheds && s.scheds[sid] <= now == s.now && id !in s.ids
      modifies this
      ensures Inv(c, s) && s.now == now && s.ids <= old(s.ids) + {id} && s.tasks == old(s.tasks)
      ensures s.scheds.Keys == old(s.scheds.Keys) && s.specs == old(s.specs)
      ensures s.scheds[sid] == c.next(sid, now) > now
      ensures sid in s.specs && exists i :: i in s.jobs && s.jobs[i] == JobFor(c, s.specs[sid], sid, old(s.scheds[sid]))
      ensures forall other | other in s.scheds && other != sid :: s.scheds[other] == old(s.scheds[other])
      ensures var d := Due(sid, old(s.scheds[sid]));
              s.made[d] == 1 && s.advanced == old(s.advanced) + multiset{d}
              && (s.made == old(s.made) || s.made == old(s.made) + multiset{d})
    {
      var d := Due(sid, s.scheds[sid]);
      var row := RunRow(c, s, d);
      var taken := exists i | i in s.jobs :: Holds(s.jobs, i, row.client, row.key);
      TickIsRun(c, s, sid, id, taken);
      if !taken {
        s := s.(jobs := s.jobs[id := row], ids := s.ids + {id}, made := s.made + multiset{d});
      }
      s := s.(scheds := s.scheds[sid := Following(c, Task(d, now, None))], advanced := s.advanced + multiset{d});
    }

    /** DueSchedules: the most overdue first, at most a batch. */
    method DueSchedules(now: nat) returns (batch: seq<string>)
      ensures DueOrder.IsBatch(DueAt(s, now), DUE_BATCH, batch)
    {
      batch := DueOrder.Earliest(DueAt(s, now), DUE_BATCH);
    }

    /** One more schedule of the batch. */
    method Advance(batch: seq<string>, i: nat, id: JobId, ghost was: map<string, nat>)
      requires Sane(c) && Inv(c, s) && i < |batch| && batch[i] !in batch[..i] && id !in s.ids
      requires Moved(c, was, s.scheds, s.now, batch[..i]) && batch[i] in was && was[batch[i]] <= s.now
      modifies this
      ensures Inv(c, s) && s.now == old(s.now) && s.ids <= old(s.ids) + {id}
      ensures Moved(c, was, s.scheds, s.now, batch[..i + 1])
    {
      ghost var mid := s.scheds;
      Materialize(batch[i], s.now, id);
      MovedNext(c, was, mid, s.scheds, s.now, batch[..i], batch[i]);
      assert batch[..i + 1] == batch[..i] + [batch[i]];
    }

    /** runDueSchedules: one tick moves every schedule of the due batch to its next due time, and no other; what stays due
        is less overdue, and nothing does when a batch holds them all. */
    method RunDueSchedules(spare: seq<JobId>) returns (batch: seq<string>)
      requires Sane(c) && Inv(c, s) && |spare| == DUE_BATCH
      requires forall i, k | 0 <= i < k < |spare| :: spare[i] != spare[k]
      requires forall i | 0 <= i < |spare| :: spare[i] !in s.ids
      modifies this
      ensures DueOrder.IsBatch(DueAt(old(s), s.now), DUE_BATCH, batch)
      ensures Inv(c, s) && s.now == old(s.now) && s.scheds.Keys == old(s.scheds.Keys)
      ensures Moved(c, old(s.scheds), s.scheds, s.now, batch)
      ensures |batch| < DUE_BATCH ==> forall sid | sid in s.scheds :: s.scheds[sid] > s.now
    {
      var now := s.now;
      batch := DueSchedules(now);
      for i := 0 to |batch|
        invariant Inv(c, s) && s.now == now && s.scheds.Keys == old(s.scheds.Keys)
        invariant forall k | i <= k < |batch| :: spare[k] !in s.ids
        invariant Moved(c, old(s.scheds), s.scheds, now, batch[..i])
      {
        Advance(batch, i, spare[i], old(s.scheds));
      }
      assert batch[..|batch|] == batch;
      NothingLeft(c, old(s), s.scheds, batch);
    }
  }

  lemma NothingLeft(c: Config, s: State, scheds: map<string, nat>, batch: seq<string>)
    requires Sane(c) && DueOrder.IsBatch(DueAt(s, s.now), DUE_BATCH, batch) && Moved(c, s.scheds, scheds, s.now, batch)
    ensures |batch| < DUE_BATCH ==> forall sid | sid in scheds :: scheds[sid] > s.now
  {
    if |batch| < DUE_BATCH {
      forall sid | sid in scheds ensures scheds[sid] > s.now {
        assert s.scheds[sid] <= s.now ==> sid in DueAt(s, s.now);
      }
    }
  }

  /** The due times of the schedules due at now. */
  function DueAt(s: State, now: nat): map<string, int> {
    map sid | sid in s.scheds && s.scheds[sid] <= now :: s.scheds[sid]
  }
}
