/**
 Resolving a payload level by level: references filled from earlier levels, one fetch per
 parameter hash, a cache in between. The result is what asking the backend recursively gives.
 */
module Resolution {
  import opened Wrappers
  import opened Json
  import opened Resolver
  import opened Filling
  import opened Chaining

  // ----- Parameters ------------------------------------------------------------------------------

  /** The parameter hash: type and parameters that count. SHA-256 is taken to be injective. */
  datatype Key = Key(typ: string, params: Json)

  /** What a configuration fixes: the backends' answers (None for a failed or unusable one) and the fields each
      type's hash ignores. */
  datatype Config = Config(backend: (string, Json) -> Option<Json>, ignore: string -> set<string>)

  /** The object without the ignored fields: the first n of them. */
  function Trimmed(j: Json, ignore: set<string>, n: nat): (seq<string>, seq<Json>)
    requires j.Obj? && n <= |j.keys| && |j.keys| == |j.items|
  {
    if n == 0 then ([], [])
    else
      var (keys, items) := Trimmed(j, ignore, n - 1);
      if j.keys[n - 1] in ignore then (keys, items) else (keys + [j.keys[n - 1]], items + [j.items[n - 1]])
  }

  function Trim(j: Json, ignore: set<string>): Json {
    if j.Obj? && |j.keys| == |j.items| then
      var (keys, items) := Trimmed(j, ignore, |j.keys|);
      Obj(keys, items)
    else j
  }

  /** What the first n fields leave: in order, and each field that counts at its key. */
  ghost predicate TrimmedOk(j: Json, ignore: set<string>, n: nat, t: Json)
    requires Ordered(j) && n <= |j.keys|
  {
    && Ordered(t) && (forall i | 0 <= i < n && j.keys[i] !in ignore :: Field(t, j.keys[i]) == Some(j.items[i]))
    && forall k | 0 <= k < |t.keys| :: t.keys[k] !in ignore && t.keys[k] in j.keys[..n]
  }

  lemma {:induction false} TrimmedKeeps(j: Json, ignore: set<string>, n: nat)
    requires Ordered(j) && n <= |j.keys|
    ensures var (keys, items) := Trimmed(j, ignore, n); TrimmedOk(j, ignore, n, Obj(keys, items))
  {
    if n > 0 {
      TrimmedKeeps(j, ignore, n - 1);
      var (keys, items) := Trimmed(j, ignore, n - 1);
      OneMoreField(j, ignore, n, Obj(keys, items));
    }
  }

  lemma OneMoreField(j: Json, ignore: set<string>, n: nat, t: Json)
    requires Ordered(j) && 0 < n <= |j.keys| && TrimmedOk(j, ignore, n - 1, t)
    ensures TrimmedOk(j, ignore, n, if j.keys[n - 1] in ignore then t
                                    else Obj(t.keys + [j.keys[n - 1]], t.items + [j.items[n - 1]]))
  {
    var last := j.keys[n - 1];
    assert j.keys[..n] == j.keys[..n - 1] + [last];
    if last !in ignore {
      forall k | 0 <= k < |t.keys| ensures Before(t.keys[k], last) {
        var i :| 0 <= i < n - 1 && j.keys[..n - 1][i] == t.keys[k];
        assert Before(j.keys[i], j.keys[n - 1]);
      }
      FieldsStay(j, ignore, n, t, Obj(t.keys + [last], t.items + [j.items[n - 1]]));
    }
  }

  lemma FieldsStay(j: Json, ignore: set<string>, n: nat, t: Json, more: Json)
    requires Ordered(j) && 0 < n <= |j.keys| && TrimmedOk(j, ignore, n - 1, t)
    requires Ordered(more) && more.keys == t.keys + [j.keys[n - 1]] && more.items == t.items + [j.items[n - 1]]
    ensures forall i | 0 <= i < n && j.keys[i] !in ignore :: Field(more, j.keys[i]) == Some(j.items[i])
  {
    FieldAt(more, |t.keys|);
    forall i | 0 <= i < n - 1 && j.keys[i] !in ignore ensures Field(more, j.keys[i]) == Some(j.items[i]) {
      KeyIsField(t, j.keys[i]);
      var k :| 0 <= k < |t.keys| && t.keys[k] == j.keys[i];
      FieldAt(t, k);
      FieldAt(more, k);
    }
  }

  /** Exactly the ignored fields are gone. */
  lemma TrimReads(j: Json, ignore: set<string>, key: string)
    requires Ordered(j)
    ensures Ordered(Trim(j, ignore))
    ensures Field(Trim(j, ignore), key) == if key in ignore then None else Field(j, key)
  {
    TrimmedKeeps(j, ignore, |j.keys|);
    KeyIsField(j, key);
    KeyIsField(Trim(j, ignore), key);
    if key in j.keys {
      var i :| 0 <= i < |j.keys| && j.keys[i] == key;
      FieldAt(j, i);
    }
  }

  /** Rehash. */
  function KeyFor(c: Config, typ: string, input: Json): Key {
    Key(typ, Trim(input, c.ignore(typ)))
  }

  /** Two objects have the same hash exactly when they are of one type and agree on every field that counts. */
  lemma SameKey(c: Config, typ: string, x: Json, other: string, y: Json)
    requires Ordered(x) && Ordered(y)
    ensures KeyFor(c, typ, x) == KeyFor(c, other, y) <==>
            typ == other && forall key | key !in c.ignore(typ) :: Field(x, key) == Field(y, key)
  {
    TrimReads(x, c.ignore(typ), "");
    TrimReads(y, c.ignore(typ), "");
    forall key
      ensures Field(Trim(x, c.ignore(typ)), key) == if key in c.ignore(typ) then None else Field(x, key)
      ensures Field(Trim(y, c.ignore(typ)), key) == if key in c.ignore(typ) then None else Field(y, key)
    {
      TrimReads(x, c.ignore(typ), key);
      TrimReads(y, c.ignore(typ), key);
    }
    if typ == other && forall key | key !in c.ignore(typ) :: Field(x, key) == Field(y, key) {
      SameFields(Trim(x, c.ignore(typ)), Trim(y, c.ignore(typ)));
    }
  }

  /** Ignored fields do not change a backend's answer. */
  ghost predicate Blind(c: Config) {
    forall typ, x, y | KeyFor(c, typ, x) == KeyFor(c, typ, y) :: c.backend(typ, x) == c.backend(typ, y)
  }

  /** v is the backend's answer to every input with this hash. */
  ghost predicate Serves(c: Config, k: Key, v: Json) {
    forall x | KeyFor(c, k.typ, x) == k :: c.backend(k.typ, x) == Some(v)
  }

  lemma AnswerServes(c: Config, typ: string, x: Json)
    requires Blind(c) && c.backend(typ, x).Some?
    ensures Serves(c, KeyFor(c, typ, x), c.backend(typ, x).value)
  {
  }

  // ----- The meaning -----------------------------------------------------------------------------------

  /** References lead to smaller depths. */
  ghost predicate Down(found: seq<Found>, p: Plan) {
    && |p.g| == |found| == |p.depth|
    && forall f: nat, t: nat | Edge(p.g, f, t) :: t < |p.g| && p.depth[t] < p.depth[f]
  }

  /** A resolvent that refers to nothing holds no reference. */
  ghost predicate Plain(found: seq<Found>, p: Plan) {
    && |p.g| == |found|
    && forall f | 0 <= f < |found| && p.g[f] == map[] :: NoRefs(found[f].obj)
  }

  predicate Ascends(s: seq<nat>) {
    forall i, k | 0 <= i < k < |s| :: s[i] < s[k]
  }

  /** The level holds resolvents of depth d, in document order. */
  ghost predicate Layer(depth: seq<nat>, level: seq<nat>, d: nat) {
    && (forall i | 0 <= i < |level| :: level[i] < |depth| && depth[level[i]] == d)
    && Ascends(level)
  }

  ghost predicate Layered(p: Plan) {
    && (forall d | 0 <= d < |p.levels| :: Layer(p.depth, p.levels[d], d))
    && forall f | 0 <= f < |p.depth| :: p.depth[f] < |p.levels| && f in p.levels[p.depth[f]]
  }

  ghost predicate Ready(found: seq<Found>, p: Plan) {
    Down(found, p) && Plain(found, p) && Layered(p)
  }

  /** The parameters a resolvent means: its object, references replaced by what their resolvents mean. */
  ghost function Meant(c: Config, found: seq<Found>, p: Plan, f: nat): Option<Json>
    requires Down(found, p) && f < |found|
    decreases p.depth[f], 0
  {
    if exists t: nat :: Edge(p.g, f, t) && Naive(c, found, p, t).None? then None
    else Refilled(found[f].obj, p.g[f],
                  map t: nat | t in p.g[f].Values && Edge(p.g, f, t) :: Naive(c, found, p, t).value)
  }

  /** The series a resolvent means: the backend's answer to those parameters. */
  ghost function Naive(c: Config, found: seq<Found>, p: Plan, f: nat): Option<Json>
    requires Down(found, p) && f < |found|
    decreases p.depth[f], 1
  {
    match Meant(c, found, p, f)
    case None => None
    case Some(input) => c.backend(found[f].typ, input)
  }

  /** The series f's references read: what the resolvents it refers to mean. */
  ghost predicate DocsFor(c: Config, found: seq<Found>, p: Plan, f: nat, docs: map<nat, Json>)
    requires Down(found, p) && f < |found|
  {
    docs.Keys == p.g[f].Values && forall t: nat | Edge(p.g, f, t) :: t in docs && Naive(c, found, p, t) == Some(docs[t])
  }

  /** The parameters f has to be sent with: its references filled from those series. */
  ghost predicate Sends(c: Config, found: seq<Found>, p: Plan, f: nat, input: Json)
    requires Down(found, p) && f < |found|
  {
    exists docs :: DocsFor(c, found, p, f, docs) && Fills(found[f].obj, p.g[f], docs, input)
  }

  /** With the series of its references at hand, filling gives the parameters it means. */
  lemma FilledIsMeant(c: Config, found: seq<Found>, p: Plan, f: nat, docs: map<nat, Json>)
    requires Down(found, p) && f < |found| && DocsFor(c, found, p, f, docs)
    ensures Meant(c, found, p, f) == Refilled(found[f].obj, p.g[f], docs)
  {
    assert forall t: nat | t in docs :: Edge(p.g, f, t);
    assert docs == map t: nat | t in p.g[f].Values && Edge(p.g, f, t) :: Naive(c, found, p, t).value;
  }

  lemma MeantHasDocs(c: Config, found: seq<Found>, p: Plan, f: nat) returns (docs: map<nat, Json>)
    requires Down(found, p) && f < |found| && Meant(c, found, p, f).Some?
    ensures DocsFor(c, found, p, f, docs)
  {
    docs := map t: nat | t in p.g[f].Values && Edge(p.g, f, t) :: Naive(c, found, p, t).value;
    assert forall t: nat | t in p.g[f].Values :: Edge(p.g, f, t);
  }

  lemma MeantMeans(c: Config, found: seq<Found>, p: Plan, f: nat, input: Json)
    requires Down(found, p) && f < |found|
    ensures Meant(c, found, p, f) == Some(input) <==> Sends(c, found, p, f, input)
  {
    if Meant(c, found, p, f) == Some(input) {
      var docs := MeantHasDocs(c, found, p, f);
      FilledIsMeant(c, found, p, f, docs);
      FillingMeans(found[f].obj, p.g[f], docs, input);
    }
    if Sends(c, found, p, f, input) {
      var docs :| DocsFor(c, found, p, f, docs) && Fills(found[f].obj, p.g[f], docs, input);
      FillingMeans(found[f].obj, p.g[f], docs, input);
      FilledIsMeant(c, found, p, f, docs);
    }
  }

  lemma SentIsMeant(c: Config, found: seq<Found>, p: Plan, f: nat)
    requires Down(found, p) && f < |found|
    ensures forall input :: Sends(c, found, p, f, input) <==> Meant(c, found, p, f) == Some(input)
  {
    forall input ensures Sends(c, found, p, f, input) <==> Meant(c, found, p, f) == Some(input) {
      MeantMeans(c, found, p, f, input);
    }
  }

  /** The series of a resolvent is the backend's answer to those parameters, and there is none without them. */
  lemma NaiveMeans(c: Config, found: seq<Found>, p: Plan, f: nat, v: Json)
    requires Down(found, p) && f < |found|
    ensures Naive(c, found, p, f) == Some(v) <==>
            exists input :: Sends(c, found, p, f, input) && c.backend(found[f].typ, input) == Some(v)
  {
    SentIsMeant(c, found, p, f);
    if Meant(c, found, p, f).Some? { assert Sends(c, found, p, f, Meant(c, found, p, f).value); }
  }

  /** The series the references of a resolvent read, when resolvent t has series[t]. */
  function ReadBy(deps: map<string, nat>, series: seq<Json>): (docs: map<nat, Json>)
    ensures docs.Keys <= deps.Values
  {
    map t: nat | t in deps.Values && t < |series| :: series[t]
  }

  /** f's series is the backend's answer to its object, filled from the series of the others. */
  ghost predicate SolvedAt(c: Config, found: seq<Found>, g: Graph, series: seq<Json>, f: nat)
    requires f < |found| == |g| == |series|
  {
    exists input ::
      Fills(found[f].obj, g[f], ReadBy(g[f], series), input) && c.backend(found[f].typ, input) == Some(series[f])
  }

  ghost predicate Solves(c: Config, found: seq<Found>, g: Graph, series: seq<Json>)
    requires |found| == |g| == |series|
  {
    forall f | 0 <= f < |found| :: SolvedAt(c, found, g, series, f)
  }

  ghost predicate AllMean(c: Config, found: seq<Found>, p: Plan, series: seq<Json>)
    requires Down(found, p) && |series| == |found|
  {
    forall f | 0 <= f < |found| :: Naive(c, found, p, f) == Some(series[f])
  }

  /** The series the resolvents mean are the one solution of these equations. */
  lemma MeaningSolves(c: Config, found: seq<Found>, p: Plan, series: seq<Json>)
    requires Down(found, p) && |series| == |found|
    ensures AllMean(c, found, p, series) <==> Solves(c, found, p.g, series)
  {
    if AllMean(c, found, p, series) {
      forall f | 0 <= f < |found| ensures SolvedAt(c, found, p.g, series, f) {
        ReadIsMeant(c, found, p, series, f);
      }
    }
    if Solves(c, found, p.g, series) {
      forall f | 0 <= f < |found| ensures Naive(c, found, p, f) == Some(series[f]) {
        SolvedIsMeant(c, found, p, series, f);
      }
    }
  }

  /** Once the references have the series they mean, f has its own exactly when it solves its equation. */
  lemma ReadIsMeant(c: Config, found: seq<Found>, p: Plan, series: seq<Json>, f: nat)
    requires Down(found, p) && |series| == |found| && f < |found|
    requires forall t: nat | Edge(p.g, f, t) :: Naive(c, found, p, t) == Some(series[t])
    ensures Naive(c, found, p, f) == Some(series[f]) <==> SolvedAt(c, found, p.g, series, f)
  {
    var docs := ReadBy(p.g[f], series);
    assert forall t: nat | t in p.g[f].Values :: Edge(p.g, f, t);
    FilledIsMeant(c, found, p, f, docs);
    forall input
      ensures Meant(c, found, p, f) == Some(input) <==> Fills(found[f].obj, p.g[f], docs, input)
    {
      FillingMeans(found[f].obj, p.g[f], docs, input);
    }
  }

  lemma {:induction false} SolvedIsMeant(c: Config, found: seq<Found>, p: Plan, series: seq<Json>, f: nat)
    requires Down(found, p) && |series| == |found| && Solves(c, found, p.g, series) && f < |found|
    ensures Naive(c, found, p, f) == Some(series[f])
    decreases p.depth[f]
  {
    forall t: nat | Edge(p.g, f, t) ensures Naive(c, found, p, t) == Some(series[t]) {
      SolvedIsMeant(c, found, p, series, t);
    }
    ReadIsMeant(c, found, p, series, f);
  }

  /**
   The resolvent a failed job names: nothing shallower fails; within the level the first whose
   references do not fit and, when all fit, the first without an answer.
   */
  ghost predicate Blamed(c: Config, found: seq<Found>, p: Plan, f: nat)
    requires Down(found, p)
  {
    && f < |found| && Naive(c, found, p, f).None?
    && (forall k | 0 <= k < |found| && p.depth[k] < p.depth[f] :: Naive(c, found, p, k).Some?)
    && (forall k | 0 <= k < f && p.depth[k] == p.depth[f] :: Meant(c, found, p, k).Some?)
    && (Meant(c, found, p, f).Some? ==> Unanswered(c, found, p, f))
  }

  /** Every resolvent of f's level has its parameters, and those before f their answer. */
  ghost predicate Unanswered(c: Config, found: seq<Found>, p: Plan, f: nat)
    requires Down(found, p) && f < |found|
  {
    && (forall k | 0 <= k < |found| && p.depth[k] == p.depth[f] :: Meant(c, found, p, k).Some?)
    && (forall k | 0 <= k < f && p.depth[k] == p.depth[f] :: Naive(c, found, p, k).Some?)
  }

  /** A resolvent blamed for its references has all their series, and one of the references has no value in them. */
  lemma UnfitMeans(c: Config, found: seq<Found>, p: Plan, f: nat)
    requires Down(found, p) && Blamed(c, found, p, f) && Meant(c, found, p, f).None?
    ensures exists docs :: DocsFor(c, found, p, f, docs) && Unfillable(found[f].obj, p.g[f], docs)
  {
    forall t: nat | Edge(p.g, f, t) ensures Naive(c, found, p, t).Some? { assert p.depth[t] < p.depth[f]; }
    var docs := map t: nat | t in p.g[f].Values && Edge(p.g, f, t) :: Naive(c, found, p, t).value;
    assert forall t: nat | t in p.g[f].Values :: Edge(p.g, f, t);
    assert DocsFor(c, found, p, f, docs);
    FilledIsMeant(c, found, p, f, docs);
    FillingFails(found[f].obj, p.g[f], docs);
  }

  /** There is never more than one to blame. */
  lemma OneToBlame(c: Config, found: seq<Found>, p: Plan, f: nat, g: nat)
    requires Down(found, p) && Blamed(c, found, p, f) && Blamed(c, found, p, g)
    ensures f == g
  {
  }

  // ----- The series cache -------------------------------------------------------------------------------

  datatype Row = Row(body: Json, expires: nat)

  type Table = map<Key, Row>

  datatype CacheMode = Use | Refresh | Bypass

  /** Every row was written under this configuration. */
  ghost predicate ValidTable(c: Config, table: Table) {
    forall k | k in table :: Serves(c, k, table[k].body)
  }

  /** GetSeries. */
  function Cached(table: Table, k: Key, now: nat): Option<Json> {
    if k in table && table[k].expires > now then Some(table[k].body) else None
  }

  /** fetchOne: whatever the cache holds, the answer is the backend's. */
  method FetchOne(c: Config, typ: string, input: Json, mode: CacheMode, table: Table, now: nat, ttl: nat)
    returns (r: Option<Json>, after: Table)
    requires Blind(c) && ValidTable(c, table)
    ensures r == c.backend(typ, input) && ValidTable(c, after)
    // The cache is written exactly when the backend was asked, answered, and the job does not bypass the cache.
    ensures var key := KeyFor(c, typ, input);
            after == if mode != Bypass && r.Some? && !(mode == Use && key in table && table[key].expires > now)
                     then table[key := Row(r.value, now + ttl)] else table
  {
    var key := KeyFor(c, typ, input);
    after := table;
    if mode == Use && Cached(table, key, now).Some? {
      r := Cached(table, key, now);
      return;
    }
    r := c.backend(typ, input);
    if r.Some? && mode != Bypass {
      AnswerServes(c, typ, input);
      after := table[key := Row(r.value, now + ttl)];
    }
  }

  /** The store as each cache access meets it: any table other jobs, expiry and purging may have left, and any time. */
  datatype World = World(table: nat -> Table, now: nat -> nat, ttl: nat)

  ghost predicate Honest(c: Config, w: World) {
    forall i: nat :: ValidTable(c, w.table(i))
  }

  // ----- Fetching ---------------------------------------------------------------------------------------------

  /** The series in hand are the backend's answers. */
  ghost predicate AllServe(c: Config, all: map<Key, Json>) {
    forall k | k in all :: Serves(c, k, all[k])
  }

  /** f has its series, and it is the one it means. */
  ghost predicate Holds(c: Config, found: seq<Found>, p: Plan, inputs: seq<Json>, hashes: seq<Key>, f: nat,
                        all: map<Key, Json>)
    requires Down(found, p) && |inputs| == |hashes| == |found| && f < |found|
  {
    && Meant(c, found, p, f) == Some(inputs[f])
    && hashes[f] in all && Naive(c, found, p, f) == Some(all[hashes[f]])
  }

  ghost predicate HoldsBelow(c: Config, found: seq<Found>, p: Plan, inputs: seq<Json>, hashes: seq<Key>, d: nat,
                             all: map<Key, Json>)
    requires Down(found, p) && |inputs| == |hashes| == |found|
  {
    forall f | 0 <= f < |found| && p.depth[f] < d :: Holds(c, found, p, inputs, hashes, f, all)
  }

  /** Filling f leaves what shallower resolvents have. */
  lemma SettledKept(c: Config, found: seq<Found>, p: Plan, inputs: seq<Json>, hashes: seq<Key>,
                    inputs': seq<Json>, hashes': seq<Key>, f: nat, d: nat, all: map<Key, Json>)
    requires Down(found, p) && |inputs| == |hashes| == |inputs'| == |hashes'| == |found|
    requires f < |found| && p.depth[f] >= d && HoldsBelow(c, found, p, inputs, hashes, d, all)
    requires forall k | 0 <= k < |found| && k != f :: inputs'[k] == inputs[k] && hashes'[k] == hashes[k]
    ensures HoldsBelow(c, found, p, inputs', hashes', d, all)
  {
    forall k | 0 <= k < |found| && p.depth[k] < d ensures Holds(c, found, p, inputs', hashes', k, all) {
      assert Holds(c, found, p, inputs, hashes, k, all);
    }
  }

  /** One job's resolvents and what Fill and Rehash made of them so far. */
  class Run {
    const c: Config
    const found: seq<Found>
    const p: Plan
    var inputs: seq<Json>
    var hashes: seq<Key>

    constructor (c: Config, found: seq<Found>, p: Plan)
      requires Ready(found, p) && Blind(c)
      ensures this.c == c && this.found == found && this.p == p && Valid()
      ensures forall f | 0 <= f < |found| :: inputs[f] == found[f].obj
    {
      this.c, this.found, this.p := c, found, p;
      inputs := seq(|found|, f requires 0 <= f < |found| => found[f].obj);
      hashes := seq(|found|, f requires 0 <= f < |found| => KeyFor(c, found[f].typ, found[f].obj));
    }

    ghost predicate Valid()
      reads this
    {
      && Ready(found, p) && Blind(c)
      && Hashed(c, found, inputs, hashes)
    }

    /** f has its series, and it is the one it means. */
    ghost predicate Settled(f: nat, all: map<Key, Json>)
      reads this
      requires Valid() && f < |found|
    {
      Holds(c, found, p, inputs, hashes, f, all)
    }

    /** Fill and Rehash for one resolvent. */
    method Fill(f: nat, all: map<Key, Json>) returns (ok: bool)
      requires Valid() && f < |found| && inputs[f] == found[f].obj
      requires forall t: nat | Edge(p.g, f, t) :: t < |found| && Settled(t, all)
      modifies this
      ensures Valid()
      ensures ok <==> Meant(c, found, p, f).Some?
      ensures ok ==> Meant(c, found, p, f) == Some(inputs[f]) && Sends(c, found, p, f, inputs[f])
      ensures !ok ==> inputs == old(inputs) && forall input :: !Sends(c, found, p, f, input)
      ensures forall k | 0 <= k < |found| && k != f :: inputs[k] == old(inputs)[k] && hashes[k] == old(hashes)[k]
    {
      DocsAreThere(f, all);
      var input := if p.g[f] == map[] then Some(found[f].obj)
                   else Refilled(found[f].obj, p.g[f], DocsOf(p.g[f], hashes, all));
      FillIsMeant(f, all);
      SentIsMeant(c, found, p, f);
      if input.None? { return false; }
      inputs := inputs[f := input.value];
      hashes := hashes[f := KeyFor(c, found[f].typ, input.value)];
      return true;
    }

    lemma DocsAreThere(f: nat, all: map<Key, Json>)
      requires Valid() && f < |found| && forall t: nat | Edge(p.g, f, t) :: t < |found| && Settled(t, all)
      ensures forall t | t in p.g[f].Values :: t < |hashes| && hashes[t] in all
    {
      forall t | t in p.g[f].Values ensures t < |hashes| && hashes[t] in all { assert Edge(p.g, f, t); }
    }

    /** Filling from the series of the references gives the parameters f means. */
    lemma FillIsMeant(f: nat, all: map<Key, Json>)
      requires Valid() && f < |found| && forall t: nat | Edge(p.g, f, t) :: t < |found| && Settled(t, all)
      requires forall t | t in p.g[f].Values :: t < |hashes| && hashes[t] in all
      ensures Meant(c, found, p, f) ==
              if p.g[f] == map[] then Some(found[f].obj)
              else Refilled(found[f].obj, p.g[f], DocsOf(p.g[f], hashes, all))
    {
      if p.g[f] == map[] {
        PlainIsMeant(c, found, p, f);
      } else {
        var docs := DocsOf(p.g[f], hashes, all);
        forall t: nat | Edge(p.g, f, t) ensures t in docs && Naive(c, found, p, t) == Some(docs[t]) {
          assert Settled(t, all);
        }
        FilledIsMeant(c, found, p, f, docs);
      }
    }

    /** Fill and Rehash for a resolvent of a level whose shallower ones are settled. */
    method FillAt(d: nat, f: nat, all: map<Key, Json>) returns (ok: bool)
      requires Valid() && SettledBelow(d, all) && f < |found| && p.depth[f] == d && inputs[f] == found[f].obj
      modifies this
      ensures Valid() && SettledBelow(d, all)
      ensures if ok then Known(f) else Meant(c, found, p, f).None?
      ensures forall k | 0 <= k < |found| && k != f :: inputs[k] == old(inputs)[k]
    {
      DepsSettled(f, d, all);
      ghost var was, keys := inputs, hashes;
      ok := Fill(f, all);
      SettledKept(c, found, p, was, keys, inputs, hashes, f, d, all);
    }

    /** Fill and Rehash for a level, in document order; the first resolvent whose references do not fit, if any. */
    method FillLevel(d: nat, all: map<Key, Json>) returns (failed: Option<nat>)
      requires Valid() && d < |p.levels| && SettledBelow(d, all) && UntouchedFrom(d)
      modifies this
      ensures Valid() && SettledBelow(d, all) && UntouchedFrom(d + 1)
      ensures failed.None? ==> forall i | 0 <= i < |p.levels[d]| :: Known(p.levels[d][i])
      ensures failed.Some? ==> FirstUnfit(d, failed.value)
    {
      var level := p.levels[d];
      assert Layer(p.depth, level, d);
      for i := 0 to |level|
        invariant Valid() && SettledBelow(d, all) && UntouchedFrom(d + 1)
        invariant forall k | i <= k < |level| :: inputs[level[k]] == found[level[k]].obj
        invariant forall k | 0 <= k < i :: Known(level[k])
      {
        var ok := FillAt(d, level[i], all);
        if !ok {
          UnfitIsFirst(d, i);
          return Some(level[i]);
        }
      }
      return None;
    }

    /** f is the first of its level whose references do not fit. */
    ghost predicate FirstUnfit(d: nat, f: nat)
      reads this
      requires Valid()
    {
      && f < |found| && p.depth[f] == d && Meant(c, found, p, f).None?
      && forall k | 0 <= k < f && p.depth[k] == d :: Meant(c, found, p, k).Some?
    }

    lemma UnfitIsFirst(d: nat, i: nat)
      requires Valid() && d < |p.levels| && i < |p.levels[d]| && Layer(p.depth, p.levels[d], d)
      requires p.levels[d][i] < |found| && Meant(c, found, p, p.levels[d][i]).None?
      requires forall k | 0 <= k < i :: Known(p.levels[d][k])
      ensures FirstUnfit(d, p.levels[d][i])
    {
      var level := p.levels[d];
      forall k | 0 <= k < level[i] && p.depth[k] == d ensures Meant(c, found, p, k).Some? {
        assert k in p.levels[p.depth[k]];
        var n :| 0 <= n < |level| && level[n] == k;
        assert n < i && Known(level[n]);
      }
    }

    /** fetchAll: every hash of the level fetched once, in document order. */
    method FetchLevel(level: seq<nat>, mode: CacheMode, w: World, step: nat) returns (r: Result<map<Key, Json>, nat>)
      requires Valid() && Honest(c, w) && Ascends(level) && forall i | 0 <= i < |level| :: level[i] < |found|
      ensures r == LevelResult(c, found, inputs, hashes, level)
      ensures r.Ok? ==> AllServe(c, r.value) && forall i | 0 <= i < |level| :: hashes[level[i]] in r.value
      ensures r.Err? ==> FirstWithout(c, found, inputs, level, r.error)
    {
      var unique := Unique(hashes, level);
      r := FetchUnique(c, found, inputs, hashes, unique, mode, w, step);
      LevelMeans(c, found, inputs, hashes, level);
    }

    /** fetchChain: succeeds exactly when every resolvent means a series, and then finds each under its hash. */
    method FetchChain(mode: CacheMode, w: World) returns (r: Result<map<Key, Json>, nat>)
      requires Valid() && UntouchedFrom(0) && Honest(c, w)
      modifies this
      ensures Valid()
      ensures r.Ok? ==> forall f | 0 <= f < |found| :: Settled(f, r.value)
      ensures r.Ok? ==> Solves(c, found, p.g, SeriesIn(r.value))
      ensures r.Err? ==> Blamed(c, found, p, r.error)
    {
      var all: map<Key, Json> := map[];
      var step: nat := 0;
      for d := 0 to |p.levels|
        invariant Valid() && AllServe(c, all) && SettledBelow(d, all) && UntouchedFrom(d)
      {
        assert Layer(p.depth, p.levels[d], d);
        var unfit := FillLevel(d, all);
        if unfit.Some? {
          assert forall k | 0 <= k < |found| && p.depth[k] < d :: Settled(k, all);
          return Err(unfit.value);
        }
        var series := FetchLevel(p.levels[d], mode, w, step);
        if series.Err? {
          NoAnswer(d, series.error, all);
          return Err(series.error);
        }
        SettledNext(d, all, series.value);
        all := all + series.value;
        step := step + |p.levels[d]|;
      }
      AllSolved(all);
      return Ok(all);
    }

    /** Every resolvent's series, looked up by its hash. */
    ghost function SeriesIn(all: map<Key, Json>): (series: seq<Json>)
      reads this
      requires Valid() && forall f | 0 <= f < |found| :: Settled(f, all)
      ensures |series| == |found| && forall f | 0 <= f < |found| && Settled(f, all) :: series[f] == all[hashes[f]]
    {
      seq(|found|, f reads this requires Valid() && 0 <= f < |found| && Settled(f, all) => all[hashes[f]])
    }

    lemma AllSolved(all: map<Key, Json>)
      requires Valid() && forall f | 0 <= f < |found| :: Settled(f, all)
      ensures Solves(c, found, p.g, SeriesIn(all))
    {
      forall f | 0 <= f < |found| ensures Naive(c, found, p, f) == Some(SeriesIn(all)[f]) { assert Settled(f, all); }
      MeaningSolves(c, found, p, SeriesIn(all));
    }

    lemma NoAnswer(d: nat, f: nat, all: map<Key, Json>)
      requires Valid() && d < |p.levels| && SettledBelow(d, all)
      requires forall i | 0 <= i < |p.levels[d]| :: Known(p.levels[d][i])
      requires FirstWithout(c, found, inputs, p.levels[d], f)
      ensures Blamed(c, found, p, f)
    {
      assert Layer(p.depth, p.levels[d], d);
      forall k | 0 <= k < |found| && p.depth[k] == d ensures k in p.levels[d] && Known(k) {
        assert k in p.levels[p.depth[k]];
        var i :| 0 <= i < |p.levels[d]| && p.levels[d][i] == k;
        assert Known(p.levels[d][i]);
      }
      assert forall k | 0 <= k < |found| && p.depth[k] < d :: Settled(k, all);
    }

    /** A later level may overwrite a hash of an earlier one: the series is the same. */
    lemma SettledNext(d: nat, all: map<Key, Json>, series: map<Key, Json>)
      requires Valid() && d < |p.levels| && AllServe(c, all) && AllServe(c, series) && SettledBelow(d, all)
      requires forall i | 0 <= i < |p.levels[d]| :: Known(p.levels[d][i]) && hashes[p.levels[d][i]] in series
      ensures AllServe(c, all + series) && SettledBelow(d + 1, all + series)
    {
      forall f | 0 <= f < |found| && p.depth[f] < d + 1 ensures Settled(f, all + series) {
        if p.depth[f] < d {
          assert Settled(f, all);
        } else {
          assert f in p.levels[p.depth[f]];
          var i :| 0 <= i < |p.levels[d]| && p.levels[d][i] == f;
          assert Known(p.levels[d][i]);
        }
        HashServes(f, all + series);
      }
    }

    /** Whatever serves f's hash is the series f means. */
    lemma HashServes(f: nat, all: map<Key, Json>)
      requires Valid() && Known(f) && hashes[f] in all && Serves(c, hashes[f], all[hashes[f]])
      ensures Settled(f, all)
    {
    }

    lemma DepsSettled(f: nat, d: nat, all: map<Key, Json>)
      requires Valid() && f < |found| && p.depth[f] == d && SettledBelow(d, all)
      ensures forall t: nat | Edge(p.g, f, t) :: t < |found| && Settled(t, all)
    {
    }

    /** f's parameters are the ones it means. */
    ghost predicate Known(f: nat)
      reads this
      requires Valid()
    {
      f < |found| && Meant(c, found, p, f) == Some(inputs[f])
    }

    ghost predicate SettledBelow(d: nat, all: map<Key, Json>)
      reads this
      requires Valid()
    {
      HoldsBelow(c, found, p, inputs, hashes, d, all)
    }

    ghost predicate UntouchedFrom(d: nat)
      reads this
      requires Valid()
    {
      forall f | 0 <= f < |found| && p.depth[f] >= d :: inputs[f] == found[f].obj
    }
  }

  /** The series the references of a resolvent read, by resolvent. */
  function DocsOf(deps: map<string, nat>, hashes: seq<Key>, all: map<Key, Json>): map<nat, Json>
    requires forall t | t in deps.Values :: t < |hashes| && hashes[t] in all
  {
    map t: nat | t in deps.Values :: all[hashes[t]]
  }

  /** The backend's answer to a resolvent's input. */
  function Answer(c: Config, found: seq<Found>, inputs: seq<Json>, f: nat): Option<Json>
    requires f < |found| && f < |inputs|
  {
    c.backend(found[f].typ, inputs[f])
  }

  function Answers(c: Config, found: seq<Found>, inputs: seq<Json>, unique: seq<nat>): (answers: seq<Option<Json>>)
    requires forall i | 0 <= i < |unique| :: unique[i] < |found| && unique[i] < |inputs|
    ensures |answers| == |unique|
    ensures forall i | 0 <= i < |unique| :: answers[i] == Answer(c, found, inputs, unique[i])
  {
    seq(|unique|, i requires 0 <= i < |unique| => Answer(c, found, inputs, unique[i]))
  }

  /** The first position from i on without an answer. */
  function FirstMissing(answers: seq<Option<Json>>, i: nat): (m: Option<nat>)
    requires i <= |answers|
    ensures m.Some? ==> i <= m.value < |answers| && answers[m.value].None?
    ensures forall k | i <= k < (if m.Some? then m.value else |answers|) :: answers[k].Some?
    decreases |answers| - i
  {
    if i == |answers| then None else if answers[i].None? then Some(i) else FirstMissing(answers, i + 1)
  }

  /** The answers of the first n unique resolvents by hash. */
  function Collected(hashes: seq<Key>, unique: seq<nat>, answers: seq<Option<Json>>, n: nat): map<Key, Json>
    requires n <= |unique| == |answers| && forall k | 0 <= k < |unique| :: unique[k] < |hashes|
  {
    if n == 0 then map[]
    else if answers[n - 1].None? then Collected(hashes, unique, answers, n - 1)
    else Collected(hashes, unique, answers, n - 1)[hashes[unique[n - 1]] := answers[n - 1].value]
  }

  /** Of the first n resolvents of a level, those whose hash is new. */
  function Firsts(hashes: seq<Key>, level: seq<nat>, n: nat): seq<nat>
    requires n <= |level| && forall i | 0 <= i < |level| :: level[i] < |hashes|
  {
    if n == 0 then []
    else
      var start := Firsts(hashes, level, n - 1);
      if Covered(hashes, start, hashes[level[n - 1]]) then start else start + [level[n - 1]]
  }

  /** The first n resolvents of the level hold f. */
  predicate Within(level: seq<nat>, n: nat, f: nat)
    requires n <= |level|
  {
    exists i | 0 <= i < n :: level[i] == f
  }

  /** f comes before every other of the first n resolvents with its hash. */
  predicate Leads(hashes: seq<Key>, level: seq<nat>, n: nat, f: nat)
    requires n <= |level| && forall i | 0 <= i < |level| :: level[i] < |hashes|
  {
    f < |hashes| && forall i | 0 <= i < n && hashes[level[i]] == hashes[f] :: f <= level[i]
  }

  lemma {:induction false} FirstsWithin(hashes: seq<Key>, level: seq<nat>, n: nat, k: nat)
    requires n <= |level| && (forall i | 0 <= i < |level| :: level[i] < |hashes|) && k < |Firsts(hashes, level, n)|
    ensures Within(level, n, Firsts(hashes, level, n)[k]) && Firsts(hashes, level, n)[k] < |hashes|
  {
    if k < |Firsts(hashes, level, n - 1)| {
      FirstsWithin(hashes, level, n - 1, k);
      var i :| 0 <= i < n - 1 && level[i] == Firsts(hashes, level, n - 1)[k];
      assert level[i] == Firsts(hashes, level, n)[k];
    } else {
      assert level[n - 1] == Firsts(hashes, level, n)[k];
    }
  }

  /** Every hash is covered. */
  lemma {:induction false} FirstsCover(hashes: seq<Key>, level: seq<nat>, n: nat, i: nat)
    requires i < n <= |level| && forall i | 0 <= i < |level| :: level[i] < |hashes|
    ensures Covered(hashes, Firsts(hashes, level, n), hashes[level[i]])
  {
    var start, last := Firsts(hashes, level, n - 1), level[n - 1];
    if i < n - 1 { FirstsCover(hashes, level, n - 1, i); }
    CoveredMore(hashes, start, last, hashes[level[i]]);
  }

  lemma CoveredMore(hashes: seq<Key>, unique: seq<nat>, f: nat, h: Key)
    requires f < |hashes|
    ensures Covered(hashes, unique, h) || hashes[f] == h ==> Covered(hashes, unique + [f], h)
  {
    var more := unique + [f];
    assert more[|unique|] == f;
    if Covered(hashes, unique, h) {
      var k :| 0 <= k < |unique| && unique[k] < |hashes| && hashes[unique[k]] == h;
      assert more[k] == unique[k];
    }
  }

  lemma {:induction false} FirstsAscend(hashes: seq<Key>, level: seq<nat>, n: nat)
    requires n <= |level| && Ascends(level) && forall i | 0 <= i < |level| :: level[i] < |hashes|
    ensures Ascends(Firsts(hashes, level, n))
  {
    if n > 0 {
      FirstsAscend(hashes, level, n - 1);
      var start := Firsts(hashes, level, n - 1);
      forall k: nat | k < |start| ensures start[k] < level[n - 1] { FirstsWithin(hashes, level, n - 1, k); }
    }
  }

  lemma {:induction false} FirstsLead(hashes: seq<Key>, level: seq<nat>, n: nat, k: nat)
    requires n <= |level| && Ascends(level) && (forall i | 0 <= i < |level| :: level[i] < |hashes|)
    requires k < |Firsts(hashes, level, n)|
    ensures Leads(hashes, level, n, Firsts(hashes, level, n)[k])
  {
    var start, last := Firsts(hashes, level, n - 1), level[n - 1];
    if k < |start| {
      FirstsLead(hashes, level, n - 1, k);
      FirstsWithin(hashes, level, n - 1, k);
    } else {
      forall i: nat | i < n - 1 ensures hashes[level[i]] != hashes[last] { FirstsCover(hashes, level, n - 1, i); }
    }
  }

  /** Each kept resolvent is the first of its hash, kept once, in document order. */
  lemma FirstsAreFirst(hashes: seq<Key>, level: seq<nat>)
    requires Ascends(level) && forall i | 0 <= i < |level| :: level[i] < |hashes|
    ensures var unique := Firsts(hashes, level, |level|);
            && Ascends(unique)
            && (forall k | 0 <= k < |unique| :: unique[k] in level && Leads(hashes, level, |level|, unique[k]))
            && (forall i | 0 <= i < |level| :: Covered(hashes, unique, hashes[level[i]]))
  {
    var unique := Firsts(hashes, level, |level|);
    FirstsAscend(hashes, level, |level|);
    forall k: nat | k < |unique| ensures unique[k] in level && Leads(hashes, level, |level|, unique[k]) {
      FirstsWithin(hashes, level, |level|, k);
      FirstsLead(hashes, level, |level|, k);
    }
    forall i: nat | i < |level|
      ensures Covered(hashes, unique, hashes[level[i]])
    {
      FirstsCover(hashes, level, |level|, i);
    }
  }

  // ----- What fetching a level comes to ----------------------------------------------------------

  /** Hashes are those of the inputs. */
  ghost predicate Hashed(c: Config, found: seq<Found>, inputs: seq<Json>, hashes: seq<Key>) {
    && |inputs| == |hashes| == |found|
    && forall f | 0 <= f < |found| :: hashes[f] == KeyFor(c, found[f].typ, inputs[f])
  }

  /** A series for every hash, or the first resolvent without an answer. */
  function LevelResult(c: Config, found: seq<Found>, inputs: seq<Json>, hashes: seq<Key>, level: seq<nat>)
    : Result<map<Key, Json>, nat>
    requires |inputs| == |hashes| == |found| && forall i | 0 <= i < |level| :: level[i] < |found|
  {
    FirstsInRange(hashes, level);
    UniqueResult(c, found, inputs, hashes, Firsts(hashes, level, |level|))
  }

  function UniqueResult(c: Config, found: seq<Found>, inputs: seq<Json>, hashes: seq<Key>, unique: seq<nat>)
    : Result<map<Key, Json>, nat>
    requires |inputs| == |hashes| == |found| && forall i | 0 <= i < |unique| :: unique[i] < |found|
  {
    var answers := Answers(c, found, inputs, unique);
    match FirstMissing(answers, 0)
    case Some(i) => Err(unique[i])
    case None => Ok(Collected(hashes, unique, answers, |unique|))
  }

  lemma FirstsInRange(hashes: seq<Key>, level: seq<nat>)
    requires forall i | 0 <= i < |level| :: level[i] < |hashes|
    ensures forall k | 0 <= k < |Firsts(hashes, level, |level|)| :: Firsts(hashes, level, |level|)[k] < |hashes|
  {
    forall k: nat | k < |Firsts(hashes, level, |level|)| ensures Firsts(hashes, level, |level|)[k] < |hashes| {
      FirstsWithin(hashes, level, |level|, k);
    }
  }

  /** f is the first of the level without an answer. */
  ghost predicate FirstWithout(c: Config, found: seq<Found>, inputs: seq<Json>, level: seq<nat>, f: nat) {
    && f in level && f < |found| && f < |inputs| && Answer(c, found, inputs, f).None?
    && forall g | g in level && g < f :: Answer(c, found, inputs, g).Some?
  }

  /** The result of a level is what the backend says about all its resolvents. */
  lemma LevelMeans(c: Config, found: seq<Found>, inputs: seq<Json>, hashes: seq<Key>, level: seq<nat>)
    requires Blind(c) && Hashed(c, found, inputs, hashes) && Ascends(level) &&
             forall i | 0 <= i < |level| :: level[i] < |found|
    ensures var r := LevelResult(c, found, inputs, hashes, level);
            && (r.Ok? ==> AllServe(c, r.value) && forall i | 0 <= i < |level| :: hashes[level[i]] in r.value)
            && (r.Err? ==> FirstWithout(c, found, inputs, level, r.error))
  {
    FirstsInRange(hashes, level);
    FirstsAreFirst(hashes, level);
    var unique := Firsts(hashes, level, |level|);
    var missing := FirstMissing(Answers(c, found, inputs, unique), 0);
    if missing.Some? {
      MissingIsFirst(c, found, inputs, hashes, level, unique, missing.value);
    } else {
      AllAnswered(c, found, inputs, hashes, level, unique);
    }
  }

  lemma MissingIsFirst(c: Config, found: seq<Found>, inputs: seq<Json>, hashes: seq<Key>, level: seq<nat>,
                       unique: seq<nat>, m: nat)
    requires Blind(c) && Hashed(c, found, inputs, hashes) && (forall i | 0 <= i < |level| :: level[i] < |found|)
    requires Ascends(unique) && m < |unique|
    requires forall k | 0 <= k < |unique| :: unique[k] in level && Leads(hashes, level, |level|, unique[k])
    requires forall i | 0 <= i < |level| :: Covered(hashes, unique, hashes[level[i]])
    requires Answer(c, found, inputs, unique[m]).None?
    requires forall k | 0 <= k < m :: Answer(c, found, inputs, unique[k]).Some?
    ensures FirstWithout(c, found, inputs, level, unique[m])
  {
    forall f | f in level && f < unique[m] ensures Answer(c, found, inputs, f).Some? {
      var i :| 0 <= i < |level| && level[i] == f;
      EarlierAnswered(c, found, inputs, hashes, unique, m, f);
    }
  }

  lemma AllAnswered(c: Config, found: seq<Found>, inputs: seq<Json>, hashes: seq<Key>, level: seq<nat>,
                    unique: seq<nat>)
    requires Blind(c) && Hashed(c, found, inputs, hashes) && (forall i | 0 <= i < |level| :: level[i] < |found|)
    requires forall k | 0 <= k < |unique| :: unique[k] < |found| && Answer(c, found, inputs, unique[k]).Some?
    requires forall i | 0 <= i < |level| :: Covered(hashes, unique, hashes[level[i]])
    ensures var all := Collected(hashes, unique, Answers(c, found, inputs, unique), |unique|);
            AllServe(c, all) && forall i | 0 <= i < |level| :: hashes[level[i]] in all
  {
    CollectedServes(c, found, inputs, hashes, unique, Answers(c, found, inputs, unique), |unique|);
    forall i | 0 <= i < |level|
      ensures hashes[level[i]] in Collected(hashes, unique, Answers(c, found, inputs, unique), |unique|)
    {
      assert Covered(hashes, unique, hashes[level[i]]);
    }
  }

  /** A resolvent before the first one without an answer has the answer of the first with its hash. */
  lemma EarlierAnswered(c: Config, found: seq<Found>, inputs: seq<Json>, hashes: seq<Key>, unique: seq<nat>,
                        m: nat, f: nat)
    requires Blind(c) && Hashed(c, found, inputs, hashes)
    requires f < |found| && m < |unique| && f < unique[m] && Ascends(unique) && Covered(hashes, unique, hashes[f])
    requires forall k | 0 <= k < |unique| :: unique[k] < |found| && (hashes[unique[k]] == hashes[f] ==> unique[k] <= f)
    requires forall k | 0 <= k < m :: Answer(c, found, inputs, unique[k]).Some?
    ensures Answer(c, found, inputs, f).Some?
  {
    var k :| 0 <= k < |unique| && unique[k] < |hashes| && hashes[unique[k]] == hashes[f];
    assert k < m;
    assert KeyFor(c, found[f].typ, inputs[unique[k]]) == KeyFor(c, found[f].typ, inputs[f]);
  }

  lemma {:induction false} CollectedServes(c: Config, found: seq<Found>, inputs: seq<Json>, hashes: seq<Key>,
                                           unique: seq<nat>, answers: seq<Option<Json>>, n: nat)
    requires Blind(c) && Hashed(c, found, inputs, hashes) && n <= |unique| == |answers|
    requires forall k | 0 <= k < |unique| ::
               unique[k] < |found| && answers[k] == Answer(c, found, inputs, unique[k]) && answers[k].Some?
    ensures var all := Collected(hashes, unique, answers, n);
            AllServe(c, all) && forall k | 0 <= k < n :: hashes[unique[k]] in all
  {
    if n > 0 {
      CollectedServes(c, found, inputs, hashes, unique, answers, n - 1);
      AnswerServes(c, found[unique[n - 1]].typ, inputs[unique[n - 1]]);
    }
  }

  /** The fetches of the unique resolvents, one after the other. */
  method FetchUnique(c: Config, found: seq<Found>, inputs: seq<Json>, hashes: seq<Key>, unique: seq<nat>,
                     mode: CacheMode, w: World, step: nat) returns (r: Result<map<Key, Json>, nat>)
    requires Blind(c) && Honest(c, w) && |inputs| == |hashes| == |found|
    requires forall k | 0 <= k < |unique| :: unique[k] < |found|
    ensures r == UniqueResult(c, found, inputs, hashes, unique)
  {
    var series: map<Key, Json> := map[];
    var failed: Option<nat> := None;
    ghost var answers := Answers(c, found, inputs, unique);
    for i := 0 to |unique|
      invariant Asked(hashes, unique, answers, i, series, failed)
    {
      var f := unique[i];
      var body, _ := FetchOne(c, found[f].typ, inputs[f], mode, w.table(step + i), w.now(step + i), w.ttl);
      assert body == answers[i];
      AskedNext(hashes, unique, answers, i, series, failed);
      if body.Some? {
        series := series[hashes[f] := body.value];
      } else if failed.None? {
        failed := Some(f);
      }
    }
    return if failed.Some? then Err(failed.value) else Ok(series);
  }

  /** After i answers: the series so far, or the first resolvent without one. */
  ghost predicate Asked(hashes: seq<Key>, unique: seq<nat>, answers: seq<Option<Json>>, i: nat, series: map<Key, Json>,
                        failed: Option<nat>)
    requires i <= |unique| == |answers| && forall k | 0 <= k < |unique| :: unique[k] < |hashes|
  {
    if failed.None? then
      FirstMissing(answers, 0) == FirstMissing(answers, i) && series == Collected(hashes, unique, answers, i)
    else
      FirstMissing(answers, 0).Some? && failed.value == unique[FirstMissing(answers, 0).value]
  }

  lemma AskedNext(hashes: seq<Key>, unique: seq<nat>, answers: seq<Option<Json>>, i: nat, series: map<Key, Json>,
                  failed: Option<nat>)
    requires i < |unique| == |answers| && forall k | 0 <= k < |unique| :: unique[k] < |hashes|
    requires Asked(hashes, unique, answers, i, series, failed)
    ensures answers[i].Some? ==>
              Asked(hashes, unique, answers, i + 1, series[hashes[unique[i]] := answers[i].value], failed)
    ensures answers[i].None? ==>
              Asked(hashes, unique, answers, i + 1, series, if failed.None? then Some(unique[i]) else failed)
  {
  }

  /** uniqueByHash: the first resolvent of each hash, in document order. */
  method Unique(hashes: seq<Key>, level: seq<nat>) returns (unique: seq<nat>)
    requires Ascends(level) && forall i | 0 <= i < |level| :: level[i] < |hashes|
    ensures unique == Firsts(hashes, level, |level|) && Ascends(unique)
    ensures forall k | 0 <= k < |unique| :: unique[k] in level && Leads(hashes, level, |level|, unique[k])
    ensures forall i | 0 <= i < |level| :: Covered(hashes, unique, hashes[level[i]])
  {
    FirstsAreFirst(hashes, level);
    unique := [];
    var seen: set<Key> := {};
    for i := 0 to |level|
      invariant unique == Firsts(hashes, level, i) && SeenIn(seen, hashes, unique)
    {
      var h := hashes[level[i]];
      FirstsNext(hashes, level, i);
      SeenNext(seen, hashes, unique, level[i]);
      if h !in seen {
        seen := seen + {h};
        unique := unique + [level[i]];
      }
    }
  }

  /** The hashes seen are those of the resolvents kept. */
  ghost predicate SeenIn(seen: set<Key>, hashes: seq<Key>, unique: seq<nat>) {
    forall h :: h in seen <==> Covered(hashes, unique, h)
  }

  lemma SeenNext(seen: set<Key>, hashes: seq<Key>, unique: seq<nat>, f: nat)
    requires f < |hashes| && SeenIn(seen, hashes, unique)
    ensures hashes[f] in seen <==> Covered(hashes, unique, hashes[f])
    ensures SeenIn(seen + {hashes[f]}, hashes, unique + [f])
  {
    CoveredGrows(hashes, unique, f);
  }

  lemma FirstsNext(hashes: seq<Key>, level: seq<nat>, n: nat)
    requires n < |level| && forall i | 0 <= i < |level| :: level[i] < |hashes|
    ensures var start := Firsts(hashes, level, n);
            Firsts(hashes, level, n + 1) ==
            if Covered(hashes, start, hashes[level[n]]) then start else start + [level[n]]
  {
  }

  lemma CoveredGrows(hashes: seq<Key>, unique: seq<nat>, f: nat)
    requires f < |hashes|
    ensures forall h :: Covered(hashes, unique + [f], h) <==> Covered(hashes, unique, h) || h == hashes[f]
  {
    forall h ensures Covered(hashes, unique + [f], h) <==> Covered(hashes, unique, h) || h == hashes[f] {
      CoveredMore(hashes, unique, f, h);
    }
  }

  /** Some resolvent of the list has this hash. */
  predicate Covered(hashes: seq<Key>, unique: seq<nat>, h: Key) {
    exists k | 0 <= k < |unique| :: unique[k] < |hashes| && hashes[unique[k]] == h
  }

  /** Without references a resolvent means its own object. */
  lemma PlainIsMeant(c: Config, found: seq<Found>, p: Plan, f: nat)
    requires Plain(found, p) && Down(found, p) && f < |found| && p.g[f] == map[]
    ensures Meant(c, found, p, f) == Some(found[f].obj)
  {
    NothingToFill(found[f].obj, p.g[f], map[]);
    FilledIsMeant(c, found, p, f, map[]);
  }

  // ----- Chain's plans are ready ---------------------------------------------------------------------

  lemma LevelledIsLayered(p: Plan)
    requires Levelled(p)
    ensures Layered(p)
  {
    forall d: nat | d < |p.levels| ensures Layer(p.depth, p.levels[d], d) { AtDepthIsLayer(p.depth, d, |p.depth|); }
    forall f: nat | f < |p.depth| ensures p.depth[f] < |p.levels| && f in p.levels[p.depth[f]] {
      AtDepthHas(p.depth, p.depth[f], |p.depth|, f);
    }
  }

  lemma {:induction false} AtDepthIsLayer(depth: seq<nat>, d: nat, n: nat)
    requires n <= |depth|
    ensures Layer(depth, AtDepth(depth, d, n), d)
  {
    if n > 0 {
      AtDepthIsLayer(depth, d, n - 1);
      var s := AtDepth(depth, d, n - 1);
      forall i | 0 <= i < |s| ensures s[i] < n - 1 {
        assert s[i] in s;
        AtDepthHas(depth, d, n - 1, s[i]);
      }
    }
  }

  /** A plan Chain made for these resolvents is ready to run. */
  lemma PlanIsReady(found: seq<Found>, p: Plan)
    requires Referable(found) && p.g == RefGraph(found) && Levelled(p)
    ensures Ready(found, p)
  {
    LevelledIsLayered(p);
    forall f: nat | f < |found| && p.g[f] == map[] ensures NoRefs(found[f].obj) { NoDepsNoRefs(found, p.g, f); }
  }

  lemma NoDepsNoRefs(found: seq<Found>, g: Graph, f: nat)
    requires Referable(found) && g == RefGraph(found) && f < |found| && g[f] == map[]
    ensures NoRefs(found[f].obj)
  {
    var names := NamesIn(found);
    GraphedAt(found, names, |found|, f);
    if |names[f]| > 0 {
      assert AllBound(found, f, names[f], |names[f]|);
      assert Bound(found, f, names[f][0]);
      DepsMeans(found, f, names[f], |names[f]|, names[f][0].value);
    }
    NoneBelow(found[f].obj);
  }
}
