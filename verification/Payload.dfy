/** From payload to resolved payload: find, chain, fetch and substitute in one run. */
module Payload {
  import opened Wrappers
  import opened Json
  import opened Resolver
  import opened Substitution
  import opened Chaining
  import opened Resolution

  /** Bodies that do not decode to an object are failed fetches. */
  ghost predicate AnswersObjects(c: Config) {
    forall typ, x | c.backend(typ, x).Some? :: c.backend(typ, x).value.Obj? && WellFormed(c.backend(typ, x).value)
  }

  /** The plan is the one Chain makes: the graph of the references, with the levels of its longest chains. */
  ghost predicate Planned(found: seq<Found>, p: Plan) {
    Referable(found) && p.g == RefGraph(found) && Levelled(p)
  }

  /** The references leave no choice: two plans have the same graph and the same depths. */
  lemma PlanIsDetermined(found: seq<Found>, p: Plan, q: Plan)
    requires Planned(found, p) && Planned(found, q)
    ensures p.g == q.g && p.depth == q.depth
  {
    forall f: nat | f < |p.g| ensures p.depth[f] == q.depth[f] { LongestIsUnique(p.g, f, p.depth[f], q.depth[f]); }
  }

  /** The series the resolvents mean, in document order. */
  ghost predicate Means(c: Config, found: seq<Found>, p: Plan, series: seq<Json>) {
    && Down(found, p) && |series| == |found|
    && forall f | 0 <= f < |found| ::
         Naive(c, found, p, f) == Some(series[f]) && series[f].Obj? && WellFormed(series[f])
  }

  datatype Failure = Unchained(why: ChainError) | Unfetched(f: nat)

  /**
   The worker's pipeline up to the resolved payload, which is the payload with every resolvent
   replaced by what it means under the payload's own references.
   */
  method Resolve(c: Config, root: Json, path: string, mode: CacheMode, w: World, attach: bool)
    returns (r: Result<Json, Failure>, p: Plan, series: seq<Json>)
    requires WellFormed(root) && Blind(c) && AnswersObjects(c) && Honest(c, w)
    ensures var found := FindAll(root, path);
            && (r.Err? && r.error.Unchained? <==> !(Referable(found) && Shallow(RefGraph(found))))
            && (!(r.Err? && r.error.Unchained?) ==> Planned(found, p) && Down(found, p))
            && (r.Err? && r.error.Unfetched? ==> Blamed(c, found, p, r.error.f))
            && (r.Ok? ==> Means(c, found, p, series) && Solves(c, found, p.g, series))
            && (r.Ok? ==> r.value == WriteAll(root, EditsFor(found, series, attach)))
            && (r.Ok? ==> Replaces(root, found, series, attach, r.value))
            && (r.Ok? && (forall i | 0 <= i < |series| :: IsSeries(series[i])) ==> FindAll(r.value, path) == [])
  {
    p, series := Plan([], [], []), [];
    var found := Find(root, path);
    var chained := Chain(found);
    if chained.Err? { return Err(Unchained(chained.error)), p, series; }
    p := chained.value;
    var fetched := FetchAll(c, found, p, mode, w);
    if fetched.Err? { return Err(Unfetched(fetched.error)), p, series; }
    series := fetched.value;
    var doc := new Document(root);
    var ok := doc.SubstituteAll(path, found, series, attach);
    WritingReplaces(root, path, series, attach);
    return Ok(doc.root), p, series;
  }

  /** The series of a planned payload, or the resolvent to blame. */
  method FetchAll(c: Config, found: seq<Found>, p: Plan, mode: CacheMode, w: World) returns (r: Result<seq<Json>, nat>)
    requires Planned(found, p) && Blind(c) && AnswersObjects(c) && Honest(c, w)
    ensures Down(found, p)
    ensures r.Ok? ==> Means(c, found, p, r.value) && Solves(c, found, p.g, r.value)
    ensures r.Err? ==> Blamed(c, found, p, r.error)
  {
    PlanIsReady(found, p);
    var run := new Run(c, found, p);
    var all := run.FetchChain(mode, w);
    if all.Err? { return Err(all.error); }
    var bodies := Bodies(run, all.value);
    forall f | 0 <= f < |found| ensures bodies[f].Obj? && WellFormed(bodies[f]) { Answered(c, found, p, f); }
    MeaningSolves(c, found, p, bodies);
    return Ok(bodies);
  }

  /** The series of every resolvent, looked up by its hash. */
  method Bodies(run: Run, all: map<Key, Json>) returns (bodies: seq<Json>)
    requires run.Valid() && forall f | 0 <= f < |run.found| :: run.Settled(f, all)
    ensures |bodies| == |run.found|
    ensures forall f | 0 <= f < |bodies| :: Naive(run.c, run.found, run.p, f) == Some(bodies[f])
  {
    bodies := [];
    for f := 0 to |run.found|
      invariant |bodies| == f && forall k | 0 <= k < f :: Naive(run.c, run.found, run.p, k) == Some(bodies[k])
    {
      assert run.Settled(f, all);
      bodies := bodies + [all[run.hashes[f]]];
    }
  }

  lemma Answered(c: Config, found: seq<Found>, p: Plan, f: nat)
    requires Down(found, p) && f < |found| && AnswersObjects(c) && Naive(c, found, p, f).Some?
    ensures Naive(c, found, p, f).value.Obj? && WellFormed(Naive(c, found, p, f).value)
  {
  }
}
