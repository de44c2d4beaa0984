/** Ordering resolvents into dependency levels: memoised depth-first search with cycle detection. */
module Chaining {
  import opened Wrappers
  import opened Json
  import opened Resolver
  import opened References

  const MAX_CHAIN_DEPTH := 8

  // ----- The reference graph -----------------------------------------------------------------

  /** For every resolvent, the resolvents it refers to by name. */
  type Graph = seq<map<string, nat>>

  predicate Closed(g: Graph) {
    forall f, name | 0 <= f < |g| && name in g[f] :: g[f][name] < |g|
  }

  predicate Edge(g: Graph, f: nat, t: nat) {
    f < |g| && t in g[f].Values
  }

  /** Some chain of d references starts at f. */
  ghost predicate Walks(g: Graph, f: nat, d: nat)
    decreases d
  {
    d == 0 || exists t :: Edge(g, f, t) && Walks(g, t, d - 1)
  }

  ghost predicate Path(g: Graph, p: seq<nat>) {
    forall i | 0 <= i < |p| - 1 :: Edge(g, p[i], p[i + 1])
  }

  ghost predicate Acyclic(g: Graph) {
    forall p: seq<nat> | Path(g, p) && |p| >= 2 :: p[0] != p[|p| - 1]
  }

  /** The longest chain of references from f has d of them. */
  ghost predicate Longest(g: Graph, f: nat, d: nat) {
    Walks(g, f, d) && !Walks(g, f, d + 1)
  }

  lemma {:induction false} ShorterWalk(g: Graph, f: nat, d: nat, k: nat)
    requires Walks(g, f, d) && k <= d
    ensures Walks(g, f, k)
    decreases d
  {
    if k > 0 {
      var t :| Edge(g, f, t) && Walks(g, t, d - 1);
      ShorterWalk(g, t, d - 1, k - 1);
    }
  }

  lemma {:induction false} PathWalks(g: Graph, p: seq<nat>, i: nat, more: nat)
    requires Path(g, p) && i < |p| && Walks(g, p[|p| - 1], more)
    ensures Walks(g, p[i], |p| - 1 - i + more)
    decreases |p| - i
  {
    if i < |p| - 1 {
      PathWalks(g, p, i + 1, more);
      assert Edge(g, p[i], p[i + 1]);
    }
  }

  lemma {:induction false} WalkHasPath(g: Graph, f: nat, d: nat) returns (p: seq<nat>)
    requires Walks(g, f, d)
    ensures Path(g, p) && |p| == d + 1 && p[0] == f
    decreases d
  {
    if d == 0 {
      p := [f];
    } else {
      var t :| Edge(g, f, t) && Walks(g, t, d - 1);
      var q := WalkHasPath(g, t, d - 1);
      p := [f] + q;
    }
  }

  /** Around a cycle chains get as long as one likes. */
  lemma {:induction false} CycleWalks(g: Graph, p: seq<nat>, d: nat)
    requires Path(g, p) && |p| >= 2 && p[0] == p[|p| - 1]
    ensures Walks(g, p[0], d)
    decreases d
  {
    if d > 0 {
      CycleWalks(g, p, d - 1);
      PathWalks(g, p, 0, d - 1);
      ShorterWalk(g, p[0], |p| - 1 + d - 1, d);
    }
  }

  ghost predicate Shallow(g: Graph) {
    forall f | 0 <= f < |g| :: !Walks(g, f, MAX_CHAIN_DEPTH)
  }

  /** No chain of eight references means: no cycle, and every path has fewer than eight references. */
  lemma ShallowMeans(g: Graph)
    requires Closed(g)
    ensures Shallow(g) <==>
            Acyclic(g) && forall p: seq<nat> | Path(g, p) && p != [] && p[0] < |g| :: |p| - 1 < 8
  {
    if Shallow(g) {
      forall p: seq<nat> | Path(g, p) && |p| >= 2 ensures p[0] != p[|p| - 1] {
        assert Edge(g, p[0], p[1]);
        if p[0] == p[|p| - 1] { CycleWalks(g, p, MAX_CHAIN_DEPTH); }
      }
      forall p: seq<nat> | Path(g, p) && p != [] && p[0] < |g| ensures |p| - 1 < MAX_CHAIN_DEPTH {
        PathWalks(g, p, 0, 0);
        if |p| - 1 >= MAX_CHAIN_DEPTH { ShorterWalk(g, p[0], |p| - 1, MAX_CHAIN_DEPTH); }
      }
    } else {
      var f :| 0 <= f < |g| && Walks(g, f, MAX_CHAIN_DEPTH);
      var p := WalkHasPath(g, f, MAX_CHAIN_DEPTH);
    }
  }

  // ----- Depths --------------------------------------------------------------------------------

  datatype LevelError = Cycle | TooDeep

  /** What is memoised is right, and memoised for everything it rests on. */
  ghost predicate Memo(g: Graph, depth: map<nat, nat>) {
    forall f | f in depth :: f < |g| && depth[f] < MAX_CHAIN_DEPTH && Longest(g, f, depth[f])
  }

  /** The names still being followed lead to f, one by one. */
  ghost predicate Trail(g: Graph, trail: seq<nat>, f: nat) {
    Path(g, trail + [f]) && forall i | 0 <= i < |trail| :: trail[i] < |g|
  }

  lemma TrailCycles(g: Graph, trail: seq<nat>, f: nat)
    requires Trail(g, trail, f) && f in trail
    ensures !Acyclic(g)
  {
    var i :| 0 <= i < |trail| && trail[i] == f;
    var p := (trail + [f])[i..];
    assert Path(g, p) by {
      forall k | 0 <= k < |p| - 1 ensures Edge(g, p[k], p[k + 1]) {
        assert Edge(g, (trail + [f])[i + k], (trail + [f])[i + k + 1]);
      }
    }
    assert p[0] == p[|p| - 1] && |p| >= 2;
  }

  lemma TrailGrows(g: Graph, trail: seq<nat>, f: nat, t: nat)
    requires Trail(g, trail, f) && Edge(g, f, t)
    ensures Trail(g, trail + [f], t)
  {
    var p := trail + [f] + [t];
    forall i | 0 <= i < |p| - 1 ensures Edge(g, p[i], p[i + 1]) {
      if i < |trail| { assert Edge(g, (trail + [f])[i], (trail + [f])[i + 1]); }
    }
  }

  /** The deepest reference decides. */
  lemma DeepestDecides(g: Graph, f: nat, d: nat, depth: map<nat, nat>)
    requires f < |g| && Memo(g, depth) && Deep(g, f, g[f].Keys, depth, d)
    ensures Longest(g, f, d)
  {
    if d > 0 {
      var name :| name in g[f].Keys && depth[g[f][name]] + 1 == d;
      assert Edge(g, f, g[f][name]);
    }
    forall t: nat | Edge(g, f, t) ensures !Walks(g, t, d) {
      var name := EdgeName(g, f, t);
      assert name in g[f].Keys;
      TooDeepFor(g, t, d, depth);
    }
  }

  lemma EdgeName(g: Graph, f: nat, t: nat) returns (name: string)
    requires Edge(g, f, t)
    ensures name in g[f] && g[f][name] == t
  {
    name :| name in g[f] && g[f][name] == t;
  }

  lemma TooDeepFor(g: Graph, t: nat, d: nat, depth: map<nat, nat>)
    requires Memo(g, depth) && t in depth && depth[t] < d
    ensures !Walks(g, t, d)
  {
    if Walks(g, t, d) { ShorterWalk(g, t, d, depth[t] + 1); }
  }

  /** The maps one run of Chain fills. */
  class Leveler {
    const g: Graph
    var depth: map<nat, nat>
    var visiting: set<nat>

    ghost predicate Valid()
      reads this
    {
      Closed(g) && Memo(g, depth)
    }

    constructor (g: Graph)
      requires Closed(g)
      ensures Valid() && this.g == g && depth == map[] && visiting == {}
    {
      this.g, depth, visiting := g, map[], {};
    }

    /** level: f's depth, memoised. */
    method Level(f: nat, ghost trail: seq<nat>) returns (r: Result<nat, LevelError>)
      requires Valid() && f < |g| && Trail(g, trail, f) && visiting == Members(trail)
      modifies this
      ensures Valid() && visiting == old(visiting) && Extends(old(depth), depth)
      ensures r.Ok? ==> f in depth && depth[f] == r.value
      ensures r.Err? ==> if r.error.Cycle? then !Acyclic(g) else !Shallow(g)
      decreases |g| - |visiting|, 0
    {
      if f in depth { return Ok(depth[f]); }
      if f in visiting {
        TrailCycles(g, trail, f);
        return Err(Cycle);
      }
      visiting := visiting + {f};
      TrailFits(g, trail, f);
      r := Deepest(f, trail);
      visiting := visiting - {f};
      if r.Err? { return; }
      DeepestDecides(g, f, r.value, depth);
      if r.value >= MAX_CHAIN_DEPTH {
        ShorterWalk(g, f, r.value, MAX_CHAIN_DEPTH);
        return Err(TooDeep);
      }
      depth := depth[f := r.value];
    }

    /** The loop of level: one more than the deepest resolvent f refers to. */
    method Deepest(f: nat, ghost trail: seq<nat>) returns (r: Result<nat, LevelError>)
      requires Valid() && f < |g| && Trail(g, trail, f) && visiting == Members(trail + [f])
      modifies this
      ensures Valid() && visiting == old(visiting) && Extends(old(depth), depth)
      ensures r.Ok? ==> Deep(g, f, g[f].Keys, depth, r.value)
      ensures r.Err? ==> if r.error.Cycle? then !Acyclic(g) else !Shallow(g)
      decreases |g| - |visiting|, 1
    {
      var d := 0;
      var names := g[f].Keys;
      while names != {}
        invariant Valid() && visiting == old(visiting) && names <= g[f].Keys && Extends(old(depth), depth)
        invariant Deep(g, f, g[f].Keys - names, depth, d)
        decreases names
      {
        var name :| name in names;
        TrailGrows(g, trail, f, g[f][name]);
        ghost var was := depth;
        var dd := Level(g[f][name], trail + [f]);
        if dd.Err? { return dd; }
        OneMoreName(g, f, names, was, depth, d, name);
        names := names - {name};
        d := if dd.value + 1 > d then dd.value + 1 else d;
      }
      assert g[f].Keys - names == g[f].Keys;
      return Ok(d);
    }
  }

  function Members(trail: seq<nat>): set<nat> {
    set f | f in trail
  }

  ghost predicate Extends(prior: map<nat, nat>, later: map<nat, nat>) {
    forall k | k in prior :: k in later && later[k] == prior[k]
  }

  /** d is one more than the deepest of the named references, 0 without any. */
  ghost predicate Deep(g: Graph, f: nat, names: set<string>, depth: map<nat, nat>, d: nat)
    requires f < |g|
  {
    && (forall name | name in names :: name in g[f] && g[f][name] in depth && depth[g[f][name]] < d)
    && (d == 0 || exists name :: name in names && depth[g[f][name]] + 1 == d)
  }

  lemma DeepStays(g: Graph, f: nat, names: set<string>, was: map<nat, nat>, depth: map<nat, nat>, d: nat)
    requires f < |g| && Deep(g, f, names, was, d) && Extends(was, depth)
    ensures Deep(g, f, names, depth, d)
  {
    if d > 0 {
      var name :| name in names && was[g[f][name]] + 1 == d;
      assert depth[g[f][name]] + 1 == d;
    }
  }

  lemma DeeperBy(g: Graph, f: nat, names: set<string>, depth: map<nat, nat>, d: nat, name: string)
    requires f < |g| && Deep(g, f, names, depth, d) && name in g[f] && g[f][name] in depth
    ensures var dd := depth[g[f][name]] + 1; Deep(g, f, names + {name}, depth, if dd > d then dd else d)
  {
    var dd := depth[g[f][name]] + 1;
    if dd > d {
      assert name in names + {name};
    } else {
      var other :| other in names && depth[g[f][other]] + 1 == d;
      assert other in names + {name};
    }
  }

  lemma OneMoreName(g: Graph, f: nat, names: set<string>, was: map<nat, nat>, depth: map<nat, nat>, d: nat,
                    name: string)
    requires f < |g| && names <= g[f].Keys && name in names && Deep(g, f, g[f].Keys - names, was, d)
    requires Extends(was, depth) && g[f][name] in depth
    ensures var dd := depth[g[f][name]] + 1; Deep(g, f, g[f].Keys - (names - {name}), depth, if dd > d then dd else d)
  {
    DeepStays(g, f, g[f].Keys - names, was, depth, d);
    DeeperBy(g, f, g[f].Keys - names, depth, d, name);
    assert g[f].Keys - (names - {name}) == (g[f].Keys - names) + {name};
  }

  lemma TrailFits(g: Graph, trail: seq<nat>, f: nat)
    requires f < |g| && Trail(g, trail, f) && f !in trail
    ensures Members(trail) + {f} == Members(trail + [f]) && |Members(trail)| < |Members(trail + [f])| <= |g|
  {
    assert Members(trail) + {f} == Members(trail + [f]);
    VisitingFits(g, Members(trail + [f]));
  }

  lemma VisitingFits(g: Graph, visiting: set<nat>)
    requires forall f | f in visiting :: f < |g|
    ensures |visiting| <= |g|
  {
    var all := Below(|g|);
    SubsetSize(visiting, all);
  }

  function Below(n: nat): (s: set<nat>)
    ensures |s| == n && forall i: nat :: i in s <==> i < n
  {
    if n == 0 then {} else Below(n - 1) + {n - 1}
  }

  // ----- Binding references to names --------------------------------------------------------------

  /** The resolvents of a name among the first n, in document order. */
  function Candidates(found: seq<Found>, name: string, n: nat): seq<nat>
    requires n <= |found|
  {
    if n == 0 then []
    else Candidates(found, name, n - 1) + if found[n - 1].name == name then [n - 1] else []
  }

  /** A resolvent is a candidate for a name exactly when it bears it. */
  lemma {:induction false} CandidatesBear(found: seq<Found>, name: string, n: nat, f: nat)
    requires n <= |found|
    ensures f in Candidates(found, name, n) <==> f < n && found[f].name == name
  {
    if n > 0 { CandidatesBear(found, name, n - 1, f); }
  }

  /** The name a reference gives, if it is well-formed. */
  function From(ref: Json): (from: Option<string>)
    ensures from != Some("")
  {
    match ParseRef(ref)
    case Some(r) => Some(r.from)
    case None => None
  }

  /** For every resolvent, the names its references give, in document order. */
  type Names = seq<seq<Option<string>>>

  function FromAll(refs: seq<Json>): (froms: seq<Option<string>>)
    ensures |froms| == |refs| && forall i | 0 <= i < |refs| :: froms[i] == From(refs[i])
    ensures forall i | 0 <= i < |froms| :: froms[i] != Some("")
  {
    seq(|refs|, i requires 0 <= i < |refs| => From(refs[i]))
  }

  function NamesIn(found: seq<Found>): (names: Names)
    ensures |names| == |found| && forall f | 0 <= f < |found| :: names[f] == FromAll(RefsIn(found[f].obj))
  {
    seq(|found|, f requires 0 <= f < |found| => FromAll(RefsIn(found[f].obj)))
  }

  /** The reference is well-formed and names exactly one other resolvent. */
  predicate Bound(found: seq<Found>, f: nat, from: Option<string>) {
    && from.Some? && |Candidates(found, from.value, |found|)| == 1
    && Candidates(found, from.value, |found|)[0] != f
  }

  lemma {:induction false} CandidatesAscend(found: seq<Found>, name: string, n: nat, i: nat, k: nat)
    requires n <= |found| && i < k < |Candidates(found, name, n)|
    ensures Candidates(found, name, n)[i] < Candidates(found, name, n)[k]
  {
    var c := Candidates(found, name, n - 1);
    if k < |c| {
      CandidatesAscend(found, name, n - 1, i, k);
    } else {
      CandidatesBear(found, name, n - 1, c[i]);
    }
  }

  /** A name is bound exactly when one resolvent bears it, and it is another one. */
  lemma BoundMeans(found: seq<Found>, f: nat, name: string)
    ensures Bound(found, f, Some(name)) <==>
            exists t: nat :: Bears(found, t, name) && t != f && forall u: nat | Bears(found, u, name) :: u == t
  {
    var c := Candidates(found, name, |found|);
    forall t: nat ensures t in c <==> Bears(found, t, name) { CandidatesBear(found, name, |found|, t); }
    if Bound(found, f, Some(name)) {
      assert c == [c[0]] && Bears(found, c[0], name);
    }
    if exists t: nat :: Bears(found, t, name) && t != f && forall u: nat | Bears(found, u, name) :: u == t {
      var t: nat :| Bears(found, t, name) && t != f && forall u: nat | Bears(found, u, name) :: u == t;
      assert t in c && forall i | 0 <= i < |c| :: c[i] in c;
      if |c| > 1 { CandidatesAscend(found, name, |found|, 0, 1); }
    }
  }

  predicate Bears(found: seq<Found>, f: nat, name: string) {
    f < |found| && found[f].name == name
  }

  predicate AllBound(found: seq<Found>, f: nat, froms: seq<Option<string>>, n: nat)
    requires n <= |froms|
  {
    forall i | 0 <= i < n :: Bound(found, f, froms[i])
  }

  predicate EachBound(found: seq<Found>, names: Names, n: nat)
    requires n <= |names|
  {
    forall f | 0 <= f < n :: AllBound(found, f, names[f], |names[f]|)
  }

  /** Every reference of every resolvent is bound. */
  predicate Referable(found: seq<Found>) {
    EachBound(found, NamesIn(found), |found|)
  }

  /** The deps map after the first n references of f. */
  function Deps(found: seq<Found>, f: nat, froms: seq<Option<string>>, n: nat): map<string, nat>
    requires n <= |froms| && AllBound(found, f, froms, n)
  {
    if n == 0 then map[]
    else
      assert Bound(found, f, froms[n - 1]);
      var from := froms[n - 1].value;
      Deps(found, f, froms, n - 1)[from := Candidates(found, from, |found|)[0]]
  }

  /** The deps map holds exactly the names referred to, each with the one other resolvent that bears it. */
  lemma {:induction false} DepsMeans(found: seq<Found>, f: nat, froms: seq<Option<string>>, n: nat, name: string)
    requires n <= |froms| && AllBound(found, f, froms, n)
    ensures var m := Deps(found, f, froms, n);
            && (name in m <==> exists i | 0 <= i < n :: froms[i] == Some(name))
            && (name in m ==> m[name] < |found| && m[name] != f && found[m[name]].name == name)
  {
    if n > 0 {
      assert Bound(found, f, froms[n - 1]);
      DepsMeans(found, f, froms, n - 1, name);
      if froms[n - 1] == Some(name) {
        var c := Candidates(found, name, |found|);
        CandidatesBear(found, name, |found|, c[0]);
      }
    }
  }

  function Graphed(found: seq<Found>, names: Names, n: nat): (g: Graph)
    requires n <= |names| && EachBound(found, names, n)
    ensures |g| == n
  {
    if n == 0 then [] else Graphed(found, names, n - 1) + [Deps(found, n - 1, names[n - 1], |names[n - 1]|)]
  }

  function RefGraph(found: seq<Found>): Graph
    requires Referable(found)
  {
    Graphed(found, NamesIn(found), |found|)
  }

  lemma {:induction false} GraphedAt(found: seq<Found>, names: Names, n: nat, f: nat)
    requires f < n <= |names| && EachBound(found, names, n)
    ensures Graphed(found, names, n)[f] == Deps(found, f, names[f], |names[f]|)
  {
    if f < n - 1 { GraphedAt(found, names, n - 1, f); }
  }

  /** One of the outermost references gives the name. */
  ghost predicate RefersTo(obj: Json, name: string) {
    exists a :: Outermost(obj, a) && From(Get(obj, a).value) == Some(name)
  }

  lemma FromsMean(obj: Json, froms: seq<Option<string>>, name: string)
    requires froms == FromAll(RefsIn(obj))
    ensures (exists i | 0 <= i < |froms| :: froms[i] == Some(name)) <==> RefersTo(obj, name)
  {
    var refs := RefsIn(obj);
    if exists i | 0 <= i < |froms| :: froms[i] == Some(name) {
      var i :| 0 <= i < |froms| && froms[i] == Some(name);
      RefsInMeans(obj, refs[i]);
      var a :| Outermost(obj, a) && Get(obj, a) == Some(refs[i]);
    }
    if RefersTo(obj, name) {
      var a :| Outermost(obj, a) && From(Get(obj, a).value) == Some(name);
      RefsInMeans(obj, Get(obj, a).value);
      var i :| 0 <= i < |refs| && refs[i] == Get(obj, a).value;
      assert froms[i] == Some(name);
    }
  }

  /** The graph: f refers to t by a name exactly when one of f's outermost references gives the name and t bears it. */
  lemma GraphMeans(found: seq<Found>, f: nat, name: string)
    requires Referable(found) && f < |found|
    ensures name in RefGraph(found)[f] <==> RefersTo(found[f].obj, name)
    ensures name in RefGraph(found)[f] ==> Bears(found, RefGraph(found)[f][name], name) && RefGraph(found)[f][name] != f
  {
    var names := NamesIn(found);
    GraphedAt(found, names, |found|, f);
    assert AllBound(found, f, names[f], |names[f]|);
    DepsMeans(found, f, names[f], |names[f]|, name);
    FromsMean(found[f].obj, names[f], name);
  }

  lemma RefGraphIsClosed(found: seq<Found>)
    requires Referable(found)
    ensures Closed(RefGraph(found))
  {
    var g, names := RefGraph(found), NamesIn(found);
    forall f: nat, name | f < |g| && name in g[f] ensures g[f][name] < |g| {
      GraphedAt(found, names, |found|, f);
      DepsMeans(found, f, names[f], |names[f]|, name);
    }
  }

  datatype ChainError = Malformed | Unknown | Ambiguous | SelfReference | Unlevelled(why: LevelError)

  function Lookup(index: map<string, seq<nat>>, name: string): seq<nat> {
    if name in index then index[name] else []
  }

  /** The index lists the first n resolvents by name. */
  ghost predicate Indexed(index: map<string, seq<nat>>, found: seq<Found>, n: nat)
    requires n <= |found|
  {
    forall name | name != "" :: Lookup(index, name) == Candidates(found, name, n)
  }

  lemma IndexedNext(index: map<string, seq<nat>>, found: seq<Found>, n: nat)
    requires n < |found| && Indexed(index, found, n)
    ensures var name := found[n].name;
            Indexed(if name == "" then index else index[name := Lookup(index, name) + [n]], found, n + 1)
  {
    var name := found[n].name;
    var next := if name == "" then index else index[name := Lookup(index, name) + [n]];
    forall other | other != "" ensures Lookup(next, other) == Candidates(found, other, n + 1) {
      assert Lookup(index, other) == Candidates(found, other, n);
    }
  }

  /** The byName map. */
  method ByName(found: seq<Found>) returns (index: map<string, seq<nat>>)
    ensures Indexed(index, found, |found|)
  {
    index := map[];
    for i := 0 to |found|
      invariant Indexed(index, found, i)
    {
      IndexedNext(index, found, i);
      var name := found[i].name;
      if name != "" { index := index[name := Lookup(index, name) + [i]]; }
    }
  }

  lemma IndexedAt(index: map<string, seq<nat>>, found: seq<Found>, name: string)
    requires Indexed(index, found, |found|) && name != ""
    ensures Lookup(index, name) == Candidates(found, name, |found|)
  {
  }

  /** bind: the resolvent one reference points to. */
  method Bind(found: seq<Found>, f: nat, from: Option<string>, index: map<string, seq<nat>>)
    returns (r: Result<nat, ChainError>)
    requires from != Some("") && Indexed(index, found, |found|)
    ensures r.Ok? <==> Bound(found, f, from)
    ensures r.Ok? ==> r.value == Candidates(found, from.value, |found|)[0]
    ensures r.Err? ==> !r.error.Unlevelled?
  {
    if from.None? { return Err(Malformed); }
    IndexedAt(index, found, from.value);
    var c := Lookup(index, from.value);
    if |c| == 0 { return Err(Unknown); }
    if |c| > 1 { return Err(Ambiguous); }
    if c[0] == f { return Err(SelfReference); }
    return Ok(c[0]);
  }

  lemma DepsNext(found: seq<Found>, f: nat, froms: seq<Option<string>>, n: nat)
    requires n < |froms| && AllBound(found, f, froms, n) && Bound(found, f, froms[n])
    ensures AllBound(found, f, froms, n + 1)
    ensures Deps(found, f, froms, n + 1) ==
            Deps(found, f, froms, n)[froms[n].value := Candidates(found, froms[n].value, |found|)[0]]
  {
  }

  /** The references of one resolvent, bound one by one. */
  method BindRefs(found: seq<Found>, f: nat, froms: seq<Option<string>>, index: map<string, seq<nat>>)
    returns (r: Result<map<string, nat>, ChainError>)
    requires (forall i | 0 <= i < |froms| :: froms[i] != Some("")) && Indexed(index, found, |found|)
    ensures r.Ok? <==> AllBound(found, f, froms, |froms|)
    ensures r.Ok? ==> r.value == Deps(found, f, froms, |froms|)
    ensures r.Err? ==> !r.error.Unlevelled?
  {
    var deps: map<string, nat> := map[];
    for i := 0 to |froms|
      invariant AllBound(found, f, froms, i) && deps == Deps(found, f, froms, i)
    {
      var t := Bind(found, f, froms[i], index);
      if t.Err? { return Err(t.error); }
      DepsNext(found, f, froms, i);
      deps := deps[froms[i].value := t.value];
    }
    return Ok(deps);
  }

  /** The deps maps of all resolvents. */
  method BindAll(found: seq<Found>, names: Names, index: map<string, seq<nat>>) returns (r: Result<Graph, ChainError>)
    requires |names| == |found| && Indexed(index, found, |found|)
    requires forall f, i | 0 <= f < |names| && 0 <= i < |names[f]| :: names[f][i] != Some("")
    ensures r.Ok? <==> EachBound(found, names, |found|)
    ensures r.Ok? ==> r.value == Graphed(found, names, |found|)
    ensures r.Err? ==> !r.error.Unlevelled?
  {
    var g: Graph := [];
    for f := 0 to |found|
      invariant EachBound(found, names, f) && g == Graphed(found, names, f)
    {
      var deps := BindRefs(found, f, names[f], index);
      if deps.Err? { return Err(deps.error); }
      g := g + [deps.value];
    }
    return Ok(g);
  }

  // ----- Levels ---------------------------------------------------------------------------------------

  /** The graph, every resolvent's depth and the resolvents of each level. */
  datatype Plan = Plan(g: Graph, depth: seq<nat>, levels: seq<seq<nat>>)

  /** The first n resolvents of depth d, in document order. */
  function AtDepth(depth: seq<nat>, d: nat, n: nat): seq<nat>
    requires n <= |depth|
  {
    if n == 0 then [] else AtDepth(depth, d, n - 1) + if depth[n - 1] == d then [n - 1] else []
  }

  lemma {:induction false} AtDepthHas(depth: seq<nat>, d: nat, n: nat, f: nat)
    requires n <= |depth|
    ensures f in AtDepth(depth, d, n) <==> f < n && depth[f] == d
  {
    if n > 0 { AtDepthHas(depth, d, n - 1, f); }
  }

  /** Levels hold every resolvent once, in document order, at the length of its longest chain; none is empty and
      every reference leads to an earlier one. */
  ghost predicate Levelled(p: Plan) {
    && |p.depth| == |p.g| && Closed(p.g)
    && (forall f | 0 <= f < |p.g| :: Longest(p.g, f, p.depth[f]) && p.depth[f] < |p.levels|)
    && (forall d | 0 <= d < |p.levels| :: p.levels[d] == AtDepth(p.depth, d, |p.depth|) && p.levels[d] != [])
    && (forall f: nat, t: nat | Edge(p.g, f, t) :: t < |p.g| && p.depth[t] < p.depth[f])
    && |p.levels| <= MAX_CHAIN_DEPTH
  }

  lemma LongestIsUnique(g: Graph, f: nat, d: nat, e: nat)
    requires Longest(g, f, d) && Longest(g, f, e)
    ensures d == e
  {
    if d < e { ShorterWalk(g, f, e, d + 1); }
    if e < d { ShorterWalk(g, f, d, e + 1); }
  }

  lemma EdgesGoDown(g: Graph, f: nat, t: nat, d: nat, e: nat)
    requires Edge(g, f, t) && Longest(g, f, d) && Longest(g, t, e)
    ensures e < d
  {
    if e >= d {
      ShorterWalk(g, t, e, d);
    }
  }

  /** Below a resolvent of depth d + 1 there is one of depth d. */
  lemma StepDown(g: Graph, depth: seq<nat>, f: nat)
    requires Closed(g) && |depth| == |g| && (forall f | 0 <= f < |g| :: Longest(g, f, depth[f]))
    requires f < |g| && depth[f] > 0
    ensures exists t | 0 <= t < |g| :: depth[t] == depth[f] - 1
  {
    var d := depth[f] - 1;
    assert Walks(g, f, d + 1);
    var t: nat :| Edge(g, f, t) && Walks(g, t, d);
    var name :| name in g[f] && g[f][name] == t;
    assert !Walks(g, f, d + 2);
    assert !Walks(g, t, d + 1);
    LongestIsUnique(g, t, d, depth[t]);
  }

  lemma {:induction false} EveryDepthOccurs(g: Graph, depth: seq<nat>, f: nat, d: nat)
    requires Closed(g) && |depth| == |g| && (forall f | 0 <= f < |g| :: Longest(g, f, depth[f]))
    requires f < |g| && d <= depth[f]
    ensures exists t | 0 <= t < |g| :: depth[t] == d
    decreases depth[f]
  {
    if d < depth[f] {
      StepDown(g, depth, f);
      var t :| 0 <= t < |g| && depth[t] == depth[f] - 1;
      EveryDepthOccurs(g, depth, t, d);
    }
  }

  /** The loop that sorts resolvents into levels. */
  method Sort(depth: seq<nat>) returns (levels: seq<seq<nat>>)
    ensures forall d | 0 <= d < |levels| :: levels[d] == AtDepth(depth, d, |depth|)
    ensures forall f | 0 <= f < |depth| :: depth[f] < |levels|
    ensures levels != [] ==> exists f | 0 <= f < |depth| :: depth[f] == |levels| - 1
  {
    levels := [];
    for f := 0 to |depth|
      invariant forall d | 0 <= d < |levels| :: levels[d] == AtDepth(depth, d, f)
      invariant forall k | 0 <= k < f :: depth[k] < |levels|
      invariant levels != [] ==> exists k | 0 <= k < f :: depth[k] == |levels| - 1
    {
      ghost var before := levels;
      while |levels| <= depth[f]
        invariant |before| <= |levels| && (|before| < |levels| ==> |levels| <= depth[f] + 1)
        invariant forall d | 0 <= d < |levels| :: levels[d] == if d < |before| then before[d] else []
      {
        levels := levels + [[]];
      }
      forall d: nat | |before| <= d ensures AtDepth(depth, d, f) == [] { NoneSoDeep(depth, d, f); }
      assert |before| < |levels| ==> depth[f] == |levels| - 1;
      levels := levels[depth[f] := levels[depth[f]] + [f]];
    }
  }

  lemma {:induction false} NoneSoDeep(depth: seq<nat>, d: nat, n: nat)
    requires n <= |depth| && forall k | 0 <= k < n :: depth[k] < d
    ensures AtDepth(depth, d, n) == []
  {
    if n > 0 { NoneSoDeep(depth, d, n - 1); }
  }

  lemma SortedIsLevelled(g: Graph, depth: seq<nat>, levels: seq<seq<nat>>)
    requires Closed(g) && |depth| == |g| &&
             forall f | 0 <= f < |g| :: Longest(g, f, depth[f]) && depth[f] < MAX_CHAIN_DEPTH
    requires forall d | 0 <= d < |levels| :: levels[d] == AtDepth(depth, d, |depth|)
    requires forall f | 0 <= f < |depth| :: depth[f] < |levels|
    requires levels != [] ==> exists f | 0 <= f < |depth| :: depth[f] == |levels| - 1
    ensures Levelled(Plan(g, depth, levels))
  {
    forall d: nat | d < |levels| ensures levels[d] != [] {
      var f :| 0 <= f < |depth| && depth[f] == |levels| - 1;
      EveryDepthOccurs(g, depth, f, d);
      var t :| 0 <= t < |g| && depth[t] == d;
      AtDepthHas(depth, d, |depth|, t);
    }
    forall f: nat, t: nat | Edge(g, f, t) ensures t < |g| && depth[t] < depth[f] {
      var name := EdgeName(g, f, t);
      EdgesGoDown(g, f, t, depth[f], depth[t]);
    }
  }

  /** Chain: succeeds exactly when every reference is bound and no chain has eight references or a cycle. */
  method Chain(found: seq<Found>) returns (r: Result<Plan, ChainError>)
    ensures r.Ok? <==> Referable(found) && Shallow(RefGraph(found))
    ensures r.Ok? ==> r.value.g == RefGraph(found) && Levelled(r.value)
    ensures r == Err(Unlevelled(Cycle)) ==> Referable(found) && !Acyclic(RefGraph(found))
  {
    var index := ByName(found);
    var bound := BindAll(found, NamesIn(found), index);
    if bound.Err? { return Err(bound.error); }
    var g := bound.value;
    RefGraphIsClosed(found);
    var depths := Depths(g);
    if depths.Err? { return Err(Unlevelled(depths.error)); }
    var levels := Sort(depths.value);
    SortedIsLevelled(g, depths.value, levels);
    return Ok(Plan(g, depths.value, levels));
  }

  /** The loop that levels every resolvent. */
  method Depths(g: Graph) returns (r: Result<seq<nat>, LevelError>)
    requires Closed(g)
    ensures r.Ok? <==> Shallow(g)
    ensures r.Ok? ==>
              |r.value| == |g| && forall f | 0 <= f < |g| :: Longest(g, f, r.value[f]) && r.value[f] < MAX_CHAIN_DEPTH
    ensures r == Err(Cycle) ==> !Acyclic(g)
  {
    var state := new Leveler(g);
    var depths: seq<nat> := [];
    for f := 0 to |g|
      invariant state.Valid() && state.visiting == {} && state.g == g && |depths| == f
      invariant forall k | 0 <= k < f :: Longest(g, k, depths[k]) && depths[k] < MAX_CHAIN_DEPTH
    {
      assert Members([]) == {};
      var d := state.Level(f, []);
      if d.Err? {
        ShallowMeans(g);
        return Err(d.error);
      }
      depths := depths + [d.value];
    }
    forall f | 0 <= f < |g| ensures !Walks(g, f, MAX_CHAIN_DEPTH) { NotSoDeep(g, f, depths[f]); }
    return Ok(depths);
  }

  lemma NotSoDeep(g: Graph, f: nat, d: nat)
    requires Longest(g, f, d) && d < MAX_CHAIN_DEPTH
    ensures !Walks(g, f, MAX_CHAIN_DEPTH)
  {
    if Walks(g, f, MAX_CHAIN_DEPTH) { ShorterWalk(g, f, MAX_CHAIN_DEPTH, d + 1); }
  }
}
