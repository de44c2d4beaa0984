/**
 A level fetched concurrently comes to the same as one fetched resolvent by resolvent: whatever
 the interleaving of feeder, fetchers and collector, the collector ends up with the level's result.
 */
module LevelFetch {
  import opened Wrappers
  import opened Json
  import opened Resolver
  import opened Resolution
  import Pool = FetchPool

  /** What the fetch of each unique resolvent yields: its series, or an error that names it. */
  function Outcomes(answers: seq<Option<Json>>, unique: seq<nat>, why: nat -> string): (fetch: seq<Pool.Outcome>)
    requires |answers| == |unique|
    ensures |fetch| == |unique|
    ensures forall i | 0 <= i < |fetch| ::
              fetch[i] == if answers[i].Some? then Pool.Body(answers[i].value) else Pool.Genuine(why(unique[i]))
  {
    seq(|unique|, i requires 0 <= i < |unique| =>
      if answers[i].Some? then Pool.Body(answers[i].value) else Pool.Genuine(why(unique[i])))
  }

  /** The collector's series by hash, for the first n unique resolvents. */
  function Gathered(hashes: seq<Key>, unique: seq<nat>, got: map<nat, Pool.Outcome>, n: nat): map<Key, Json>
    requires n <= |unique| && forall k | 0 <= k < |unique| :: unique[k] < |hashes|
  {
    if n == 0 then map[]
    else
      var start := Gathered(hashes, unique, got, n - 1);
      if n - 1 in got && got[n - 1].Body? then start[hashes[unique[n - 1]] := got[n - 1].series] else start
  }

  lemma {:induction false} GatheredIsCollected(hashes: seq<Key>, unique: seq<nat>, answers: seq<Option<Json>>,
                                               why: nat -> string, got: map<nat, Pool.Outcome>, n: nat)
    requires n <= |unique| == |answers| && (forall k | 0 <= k < |unique| :: unique[k] < |hashes|)
    requires Pool.Faithful(Outcomes(answers, unique, why), got) && forall k | 0 <= k < |unique| :: answers[k].Some?
    ensures Gathered(hashes, unique, got, n) == Collected(hashes, unique, answers, n)
  {
    if n > 0 {
      GatheredIsCollected(hashes, unique, answers, why, got, n - 1);
      assert n - 1 in got.Keys;
    }
  }

  /** What the collector hands back: the error it picks, or the series by hash. */
  ghost predicate Returns(hashes: seq<Key>, unique: seq<nat>, why: nat -> string, got: map<nat, Pool.Outcome>,
                          r: Result<map<Key, Json>, nat>)
    requires forall k | 0 <= k < |unique| :: unique[k] < |hashes|
  {
    match r
    case Ok(series) => !Pool.HasError(got) && Gathered(hashes, unique, got, |unique|) == series
    case Err(f) => Pool.HasError(got) && Pool.Picked(|unique|, got) == Some(Pool.Genuine(why(f)))
  }

  lemma PoolGivesUniqueResult(c: Config, found: seq<Found>, inputs: seq<Json>, hashes: seq<Key>, unique: seq<nat>,
                              why: nat -> string, workers: nat, tr: seq<Pool.State>, steps: seq<Pool.Step>)
    requires |inputs| == |hashes| == |found| && forall k | 0 <= k < |unique| :: unique[k] < |found|
    requires Pool.Run(Outcomes(Answers(c, found, inputs, unique), unique, why), workers, tr, steps)
    requires |tr[|steps|].got| >= |unique|
    ensures Returns(hashes, unique, why, tr[|steps|].got, UniqueResult(c, found, inputs, hashes, unique))
  {
    var answers, got := Answers(c, found, inputs, unique), tr[|steps|].got;
    var fetch := Outcomes(answers, unique, why);
    match FirstMissing(answers, 0)
    case Some(i) =>
      assert Pool.FirstFailure(fetch, i);
      Pool.ErrorIsDeterministic(fetch, workers, tr, steps, i);
      Pool.FirstIsCollected(fetch, workers, tr, steps, i);
    case None =>
      assert Pool.FirstFailure(fetch, |fetch|);
      Pool.SuccessIsDeterministic(fetch, workers, tr, steps);
      GatheredIsCollected(hashes, unique, answers, why, got, |unique|);
  }

  /** Every finished run of the pool over a level returns exactly what FetchLevel returns. */
  lemma PoolGivesLevelResult(c: Config, found: seq<Found>, inputs: seq<Json>, hashes: seq<Key>, level: seq<nat>,
                             why: nat -> string, workers: nat, tr: seq<Pool.State>, steps: seq<Pool.Step>)
    requires |inputs| == |hashes| == |found| && forall i | 0 <= i < |level| :: level[i] < |found|
    requires var unique := Firsts(hashes, level, |level|);
             && (forall k | 0 <= k < |unique| :: unique[k] < |found|)
             && Pool.Run(Outcomes(Answers(c, found, inputs, unique), unique, why), workers, tr, steps)
             && |tr[|steps|].got| >= |unique|
    ensures Returns(hashes, Firsts(hashes, level, |level|), why, tr[|steps|].got,
                    LevelResult(c, found, inputs, hashes, level))
  {
    PoolGivesUniqueResult(c, found, inputs, hashes, Firsts(hashes, level, |level|), why, workers, tr, steps);
  }
}
