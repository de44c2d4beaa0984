/**
 Why claims need fresh candidates: a run, from an empty store and with every live worker on time,
 in which a job with one attempt is claimed twice.
 */
module StaleClaim {
  import opened Wrappers
  import opened JobTable
  import opened JobProtocol
  import opened Ownership
  import opened EveryJobEnds

  const REQUEST := Request("c", "", "t", "", "", 1, 0, None)
  const CANDIDATE := Cand("a", false, "t", "c", None, 0, 1, 0)

  const ACCEPTED := Event(None, Received, 0)
  const CLAIMED := Event(Some(Received), Resolving, 0)

  /** The moment the rescue scan takes the first claim for abandoned. */
  function Late(cfg: Config): Time {
    2 * cfg.jobTimeout("t") + 1
  }

  function Rescued(cfg: Config): Event {
    Event(Some(Resolving), Received, Late(cfg))
  }

  /** The one job in a state, with its trail. */
  function Row(state: JobState, attempts: nat, updatedAt: Time): Job {
    Job(REQUEST, 0, 1, state, attempts, None, updatedAt, None, "", None, "", None)
  }

  function Store(job: Job, log: seq<Event>, served: map<string, Time>): Db {
    Db(map["a" := job], map["a" := log], map[], served)
  }

  function Submitted(): Db {
    Store(Row(Received, 0, 0), [ACCEPTED], map[])
  }

  function ClaimedOnce(): Db {
    Store(Row(Resolving, 1, 0), [ACCEPTED, CLAIMED], map["c" := 0])
  }

  function Requeued(cfg: Config): Db {
    Store(Row(Received, 1, Late(cfg)), [ACCEPTED, CLAIMED, Rescued(cfg)], map["c" := 0])
  }

  function ClaimedTwice(cfg: Config): Db {
    Store(Row(Resolving, 2, 1), [ACCEPTED, CLAIMED, Rescued(cfg), Event(Some(Received), Resolving, 1)], map["c" := 1])
  }

  /** The system around a store. */
  function With(db: Db, clock: Time, workers: map<WorkerId, Worker>, pending: set<JobId>): Sys {
    Sys(db, clock, false, workers, pending, {}, {"a"}, map[])
  }

  /** Worker w right after reading its candidates. */
  function Reading(now: Time): Worker {
    Choosing(now, [CANDIDATE])
  }

  // ----- The run: two workers read the job, the first claims it and is lost, the job is rescued, and the
  // ----- second claims it on what it read before.

  function Booting(): Sys {
    Sys(EMPTY, 0, true, map[], {}, {}, {}, map[])
  }

  function Booted(): Sys {
    Sys(EMPTY, 0, false, map[], {}, {}, {}, map[])
  }

  function FirstReads(clock: Time): Sys {
    With(Submitted(), clock, map[0 := Reading(0)], {})
  }

  function BothRead(): Sys {
    With(Submitted(), 1, map[0 := Reading(0), 1 := Reading(1)], {})
  }

  function FirstClaims(): Sys {
    With(ClaimedOnce(), 1, map[0 := Claimed("a"), 1 := Reading(1)], {})
  }

  function FirstLost(clock: Time, pending: set<JobId>): Sys {
    With(ClaimedOnce(), clock, map[0 := Idle, 1 := Reading(1)], pending)
  }

  function Waiting(cfg: Config): Sys {
    With(Requeued(cfg), Late(cfg), map[0 := Idle, 1 := Reading(1)], {})
  }

  function Overspent(cfg: Config): Sys {
    With(ClaimedTwice(cfg), Late(cfg), map[0 := Idle, 1 := Claimed("a")], {})
  }

  lemma Boots(cfg: Config)
    ensures Takes(cfg, Booting(), BootDone, Booted())
  {
  }

  lemma TimePasses(cfg: Config)
    ensures Takes(cfg, FirstReads(0), Advance(1), FirstReads(1))
    ensures Takes(cfg, FirstLost(1, {}), Advance(2 * cfg.jobTimeout("t")), FirstLost(Late(cfg), {}))
  {
  }

  lemma Submits(cfg: Config)
    ensures Takes(cfg, Booted(), Submit("a", REQUEST, 1, 0, 0), With(Submitted(), 0, map[], {}))
  {
    assert Keyed(EMPTY, "c", "") == {};
  }

  lemma Looks(cfg: Config)
    ensures Takes(cfg, With(Submitted(), 0, map[], {}), Look(0, 0, [CANDIDATE]), FirstReads(0))
    ensures Takes(cfg, FirstReads(1), Look(1, 1, [CANDIDATE]), BothRead())
  {
    forall clock: Time, workers, c | clock >= 0 && c in [CANDIDATE]
      ensures ReadsRow(With(Submitted(), clock, workers, {}), c, clock)
    {
      assert c == CANDIDATE;
    }
  }

  lemma Claims1()
    ensures forall max: int :: ClaimWins(Submitted(), "a", "c", max, 0)
    ensures forall max: int :: ClaimReceived(Submitted(), "a", "c", max, 0) == ClaimedOnce()
  {
    assert Holding(Submitted(), "c") == {};
    assert [ACCEPTED] + [CLAIMED] == [ACCEPTED, CLAIMED];
  }

  lemma FirstClaim(cfg: Config)
    ensures Takes(cfg, BothRead(), TryClaim(0), FirstClaims())
  {
    Claims1();
    assert W(BothRead(), 0) == Reading(0);
    assert BothRead().workers[0 := Claimed("a")] == FirstClaims().workers;
  }

  lemma FirstIsLost(cfg: Config)
    ensures Takes(cfg, FirstClaims(), Lose(0), FirstLost(1, {}))
  {
    assert FirstClaims().workers[0 := Idle] == FirstLost(1, {}).workers;
  }

  lemma IsStuck(cfg: Config)
    ensures Takes(cfg, FirstLost(Late(cfg), {}), RescueScan(Late(cfg)), FirstLost(Late(cfg), {"a"}))
  {
    assert Stuck(cfg, ClaimedOnce(), Late(cfg)) == {"a"};
  }

  lemma IsRequeued(cfg: Config)
    ensures Takes(cfg, FirstLost(Late(cfg), {"a"}), RequeuePending("a", Late(cfg)), Waiting(cfg))
  {
    assert [ACCEPTED, CLAIMED] + [Rescued(cfg)] == [ACCEPTED, CLAIMED, Rescued(cfg)];
    assert Transition(ClaimedOnce(), "a", RequeueNow, Late(cfg)) == Requeued(cfg);
    assert {"a"} - {"a"} == {};
  }

  lemma Claims2(cfg: Config)
    ensures forall max: int :: ClaimWins(Requeued(cfg), "a", "c", max, 1)
    ensures forall max: int :: ClaimReceived(Requeued(cfg), "a", "c", max, 1) == ClaimedTwice(cfg)
  {
    assert Holding(Requeued(cfg), "c") == {};
    assert [ACCEPTED, CLAIMED, Rescued(cfg)] + [Event(Some(Received), Resolving, 1)] == ClaimedTwice(cfg).trail["a"];
  }

  lemma SecondClaim(cfg: Config)
    ensures Takes(cfg, Waiting(cfg), TryClaim(1), Overspent(cfg))
  {
    Claims2(cfg);
    assert W(Waiting(cfg), 1) == Reading(1);
    assert Waiting(cfg).workers[1 := Claimed("a")] == Overspent(cfg).workers;
  }

  /** Nobody owns the job but after the two claims, and then its last write is recent. */
  lemma EveryoneIsOnTime(cfg: Config)
    requires cfg.jobTimeout("t") >= 1
    ensures Timely(cfg, FirstClaims()) && Timely(cfg, Overspent(cfg)) && Timely(cfg, Waiting(cfg))
    ensures Timely(cfg, Booting()) && Timely(cfg, Booted()) && Timely(cfg, With(Submitted(), 0, map[], {}))
    ensures Timely(cfg, BothRead()) && forall clock :: Timely(cfg, FirstReads(clock))
    ensures forall clock, pending :: Timely(cfg, FirstLost(clock, pending))
  {
  }

  /** One step more of a run that is on time. */
  lemma Extend(cfg: Config, tr: seq<Sys>, steps: seq<Step>, step: Step, s: Sys)
    returns (tr': seq<Sys>, steps': seq<Step>)
    requires Run(cfg, tr, steps) && AlwaysTimely(cfg, tr) && Takes(cfg, tr[|steps|], step, s) && Timely(cfg, s)
    ensures tr' == tr + [s] && steps' == steps + [step] && Run(cfg, tr', steps') && AlwaysTimely(cfg, tr')
  {
    tr', steps' := tr + [s], steps + [step];
    forall i | 0 <= i < |steps'| ensures Takes(cfg, tr'[i], steps'[i], tr'[i + 1]) {
      if i < |steps| { assert Takes(cfg, tr[i], steps[i], tr[i + 1]); }
    }
  }

  lemma UntilTheFirstClaim(cfg: Config) returns (tr: seq<Sys>, steps: seq<Step>)
    requires cfg.jobTimeout("t") >= 1
    ensures Run(cfg, tr, steps) && AlwaysTimely(cfg, tr) && tr[|steps|] == FirstClaims()
  {
    EveryoneIsOnTime(cfg);
    Boots(cfg);
    Submits(cfg);
    Looks(cfg);
    TimePasses(cfg);
    FirstClaim(cfg);
    tr, steps := [Booting()], [];
    tr, steps := Extend(cfg, tr, steps, BootDone, Booted());
    tr, steps := Extend(cfg, tr, steps, Submit("a", REQUEST, 1, 0, 0), With(Submitted(), 0, map[], {}));
    tr, steps := Extend(cfg, tr, steps, Look(0, 0, [CANDIDATE]), FirstReads(0));
    tr, steps := Extend(cfg, tr, steps, Advance(1), FirstReads(1));
    tr, steps := Extend(cfg, tr, steps, Look(1, 1, [CANDIDATE]), BothRead());
    tr, steps := Extend(cfg, tr, steps, TryClaim(0), FirstClaims());
  }

  lemma UntilTheRescue(cfg: Config) returns (tr: seq<Sys>, steps: seq<Step>)
    requires cfg.jobTimeout("t") >= 1
    ensures Run(cfg, tr, steps) && AlwaysTimely(cfg, tr) && tr[|steps|] == Waiting(cfg)
  {
    EveryoneIsOnTime(cfg);
    FirstIsLost(cfg);
    TimePasses(cfg);
    IsStuck(cfg);
    IsRequeued(cfg);
    tr, steps := UntilTheFirstClaim(cfg);
    tr, steps := Extend(cfg, tr, steps, Lose(0), FirstLost(1, {}));
    tr, steps := Extend(cfg, tr, steps, Advance(2 * cfg.jobTimeout("t")), FirstLost(Late(cfg), {}));
    tr, steps := Extend(cfg, tr, steps, RescueScan(Late(cfg)), FirstLost(Late(cfg), {"a"}));
    tr, steps := Extend(cfg, tr, steps, RequeuePending("a", Late(cfg)), Waiting(cfg));
  }

  /** The last claim of this run takes the job over its budget, on a candidate that is not fresh. */
  lemma StaleClaimOverspends(cfg: Config) returns (tr: seq<Sys>, steps: seq<Step>)
    requires cfg.jobTimeout("t") >= 1
    ensures Run(cfg, tr, steps) && AlwaysTimely(cfg, tr) && |steps| > 0
    ensures var n := |steps| - 1;
            && steps[n].TryClaim? && !FreshClaim(tr[n], steps[n])
            && Thrifty(tr[n].db, "a") && !Thrifty(tr[n + 1].db, "a")
  {
    EveryoneIsOnTime(cfg);
    SecondClaim(cfg);
    tr, steps := UntilTheRescue(cfg);
    tr, steps := Extend(cfg, tr, steps, TryClaim(1), Overspent(cfg));
    assert W(Waiting(cfg), 1) == Reading(1);
  }
}
