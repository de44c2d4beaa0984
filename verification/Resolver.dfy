/** Finding the resolvent objects of a payload. */
module Resolver {
  import opened Wrappers
  import opened Json
  import opened Pointer

  /** One resolvent object in the payload; `at` is the slot its replace closure writes. */
  datatype Found = Found(typ: string, obj: Json, path: string, name: string, at: Address)

  const TIME_SERIES_TYPE := "time-series"
  const TYPE_PREFIX := "resolvent-"

  function TypeOf(j: Json): Option<string> {
    match Field(j, "type")
    case Some(Str(t)) => Some(t)
    case _ => None
  }

  predicate IsSeries(j: Json) {
    TypeOf(j) == Some(TIME_SERIES_TYPE)
  }

  predicate IsResolvent(j: Json) {
    TypeOf(j).Some? && StartsWith(TypeOf(j).value, TYPE_PREFIX)
  }

  lemma SeriesIsNoResolvent(j: Json)
    ensures !(IsSeries(j) && IsResolvent(j))
  {
    assert TIME_SERIES_TYPE[0] != TYPE_PREFIX[0];
  }

  function NameOf(obj: Json, key: string): string {
    match Field(obj, "name")
    case Some(Str(n)) => if n != "" then n else key
    case _ => key
  }

  /** The key child i sits under; "" in an array. */
  function KeyOf(j: Json, i: nat): string
    requires i < |Kids(j)|
  {
    if j.Obj? && |j.keys| == |j.items| then j.keys[i] else ""
  }

  function Report(obj: Json, at: Address, path: string, key: string): Found
    requires IsResolvent(obj)
  {
    Found(TypeOf(obj).value, obj, path, NameOf(obj, key), at)
  }

  // ----- walk as a function ---------------------------------------------------------------

  function Walk(node: Json, at: Address, prefix: string): seq<Found>
    decreases node, |Kids(node)| + 1
  {
    if IsSeries(node) then [] else WalkKids(node, at, prefix, |Kids(node)|)
  }

  /** The reports from the first n children. */
  function WalkKids(node: Json, at: Address, prefix: string, n: nat): seq<Found>
    requires n <= |Kids(node)|
    decreases node, n
  {
    if n == 0 then [] else WalkKids(node, at, prefix, n - 1) + WalkKid(node, at, prefix, n - 1)
  }

  function WalkKid(node: Json, at: Address, prefix: string, i: nat): seq<Found>
    requires i < |Kids(node)|
    decreases node, i
  {
    var kid, path := Kids(node)[i], Extend(prefix, node, i);
    if IsResolvent(kid) then [Report(kid, at + [i], path, KeyOf(node, i))] else Walk(kid, at + [i], path)
  }

  // ----- What should be found -----------------------------------------------------------------

  /** The walk passes through the node at b: no time series, and no resolvent unless it is where the walk starts. */
  predicate Open(root: Json, b: Address, start: bool) {
    && Get(root, b).Some? && !IsSeries(Get(root, b).value)
    && (start || !IsResolvent(Get(root, b).value))
  }

  /** A resolvent object below base that no other resolvent and no time series hides. */
  ghost predicate Visible(root: Json, base: Address, a: Address) {
    && Prefix(base, a) && a != base
    && Get(root, a).Some? && IsResolvent(Get(root, a).value)
    && forall n | |base| <= n < |a| :: Open(root, a[..n], n == |base|)
  }

  /** What a report says of the document is true of it. */
  predicate Truthful(root: Json, f: Found) {
    && Get(root, f.at) == Some(f.obj) && TypeOf(f.obj) == Some(f.typ)
    && f.at != [] && Get(root, f.at[..|f.at| - 1]).Some?
    && var parent, i := Get(root, f.at[..|f.at| - 1]).value, f.at[|f.at| - 1];
    && i < |Kids(parent)| && f.name == NameOf(f.obj, KeyOf(parent, i))
  }

  /** What the document says of a report: the type is the object's own, and so is the name unless it has none; then
      it is the key the object sits under, and empty in an array. */
  ghost predicate ByFields(root: Json, f: Found) {
    && f.at != [] && Get(root, f.at[..|f.at| - 1]).Some?
    && Field(f.obj, "type") == Some(Str(f.typ)) && "resolvent-" <= f.typ
    && var parent, i := Get(root, f.at[..|f.at| - 1]).value, f.at[|f.at| - 1];
    && if OwnName(f.obj) then Field(f.obj, "name") == Some(Str(f.name))
       else if parent.Obj? && |parent.keys| == |parent.items| then i < |parent.keys| && f.name == parent.keys[i]
       else f.name == ""
  }

  ghost predicate OwnName(obj: Json) {
    exists n :: n != "" && Field(obj, "name") == Some(Str(n))
  }

  lemma TruthByFields(root: Json, f: Found)
    requires Truthful(root, f) && IsResolvent(f.obj)
    ensures ByFields(root, f)
  {
    NameByFields(f.obj, KeyOf(Get(root, f.at[..|f.at| - 1]).value, f.at[|f.at| - 1]));
    TypeByFields(f.obj);
  }

  lemma NameByFields(obj: Json, key: string)
    ensures if OwnName(obj) then Field(obj, "name") == Some(Str(NameOf(obj, key))) else NameOf(obj, key) == key
  {
  }

  /** Time series and resolvents are told by the text under "type". */
  lemma TypeByFields(j: Json)
    ensures IsSeries(j) <==> Field(j, "type") == Some(Str("time-series"))
    ensures IsResolvent(j) <==> exists t :: Field(j, "type") == Some(Str("resolvent-" + t))
    ensures IsResolvent(j) ==> Field(j, "type") == Some(Str(TypeOf(j).value)) && "resolvent-" <= TypeOf(j).value
  {
    if IsResolvent(j) {
      var typ := TypeOf(j).value;
      assert typ == typ[..|TYPE_PREFIX|] + typ[|TYPE_PREFIX|..];
    }
  }

  /** a comes before b in the document and neither lies within the other. */
  ghost predicate Sooner(a: Address, b: Address) {
    exists n: nat :: n < |a| && n < |b| && a[..n] == b[..n] && a[n] < b[n]
  }

  ghost predicate InOrder(found: seq<Found>) {
    forall i, k | 0 <= i < k < |found| :: Sooner(found[i].at, found[k].at)
  }

  ghost predicate Lists(found: seq<Found>, a: Address) {
    exists i | 0 <= i < |found| :: found[i].at == a
  }

  // ----- walk finds exactly that -----------------------------------------------------------------

  /** What lies below child i and is visible from the parent. */
  lemma VisibleBelow(root: Json, at: Address, i: nat, a: Address)
    requires Get(root, at).Some? && i < |Kids(Get(root, at).value)| && !IsSeries(Get(root, at).value)
    ensures Get(root, at + [i]) == Some(Kids(Get(root, at).value)[i])
    ensures var kid := Kids(Get(root, at).value)[i];
            (Visible(root, at, a) && a[|at|] == i) <==>
            if IsResolvent(kid) then a == at + [i] else Visible(root, at + [i], a)
  {
    assert (at + [i])[..|at|] == at;
    if Visible(root, at, a) && a[|at|] == i { VisibleFromKid(root, at, i, a); }
    if IsResolvent(Kids(Get(root, at).value)[i]) {
      KidIsVisible(root, at, i);
    } else if Visible(root, at + [i], a) {
      DeeperIsVisible(root, at, i, a);
    }
  }

  lemma KidIsVisible(root: Json, at: Address, i: nat)
    requires Get(root, at).Some? && !IsSeries(Get(root, at).value)
    requires Get(root, at + [i]).Some? && IsResolvent(Get(root, at + [i]).value)
    ensures Visible(root, at, at + [i]) && (at + [i])[|at|] == i
  {
    var b := at + [i];
    forall n | |at| <= n < |b| ensures Open(root, b[..n], n == |at|) { assert b[..n] == at; }
  }

  lemma VisibleFromKid(root: Json, at: Address, i: nat, a: Address)
    requires Visible(root, at, a) && a[|at|] == i && Get(root, at + [i]).Some?
    ensures if IsResolvent(Get(root, at + [i]).value) then a == at + [i] else Visible(root, at + [i], a)
  {
    var b := at + [i];
    assert a[..|b|] == b;
    if IsResolvent(Get(root, b).value) {
      PassedThrough(root, at, a, |b|);
    } else {
      forall n | |b| <= n < |a| ensures Open(root, a[..n], n == |b|) { assert Open(root, a[..n], n == |at|); }
    }
  }

  lemma PassedThrough(root: Json, at: Address, a: Address, n: nat)
    requires Visible(root, at, a)
    ensures |at| < n < |a| ==> Open(root, a[..n], false)
  {
  }

  lemma DeeperIsVisible(root: Json, at: Address, i: nat, a: Address)
    requires Get(root, at).Some? && !IsSeries(Get(root, at).value) && Visible(root, at + [i], a)
    requires Get(root, at + [i]).Some? && !IsResolvent(Get(root, at + [i]).value)
    ensures Visible(root, at, a) && a[|at|] == i
  {
    var b := at + [i];
    assert a[..|b|] == b;
    assert a[|at|] == b[|at|] && a[..|at|] == b[..|at|] == at;
    forall n | |at| <= n < |a| ensures Open(root, a[..n], n == |at|) {
      if n > |at| { assert Open(root, a[..n], n == |b|); }
    }
  }

  /** Soundness: every report is visible and truthful. */
  lemma {:induction false} WalkIsSound(root: Json, at: Address, node: Json, prefix: string, i: nat, f: Found)
    requires Get(root, at) == Some(node) && i < |Walk(node, at, prefix)| && f == Walk(node, at, prefix)[i]
    ensures Visible(root, at, f.at) && Truthful(root, f)
    decreases node, |Kids(node)| + 1
  {
    KidsAreSound(root, at, node, prefix, |Kids(node)|, i, f);
  }

  lemma {:induction false} KidsAreSound(root: Json, at: Address, node: Json, prefix: string, n: nat, i: nat, f: Found)
    requires Get(root, at) == Some(node) && !IsSeries(node) && n <= |Kids(node)|
    requires i < |WalkKids(node, at, prefix, n)| && f == WalkKids(node, at, prefix, n)[i]
    ensures Visible(root, at, f.at) && f.at[|at|] < n && Truthful(root, f)
    decreases node, n
  {
    var k, j := WhichKid(node, at, prefix, n, i, f);
    KidIsSound(root, at, node, prefix, k, j, f);
  }

  lemma WhichPart(node: Json, at: Address, prefix: string, n: nat, i: nat)
    requires n <= |Kids(node)| && i < |WalkKids(node, at, prefix, n)|
    ensures n > 0
    ensures var before, last := WalkKids(node, at, prefix, n - 1), WalkKid(node, at, prefix, n - 1);
            && |WalkKids(node, at, prefix, n)| == |before| + |last|
            && WalkKids(node, at, prefix, n)[i] == if i < |before| then before[i] else last[i - |before|]
  {
  }

  /** A report of the first n children comes from one of them. */
  lemma {:induction false} WhichKid(node: Json, at: Address, prefix: string, n: nat, i: nat, f: Found)
    returns (k: nat, j: nat)
    requires n <= |Kids(node)| && i < |WalkKids(node, at, prefix, n)| && f == WalkKids(node, at, prefix, n)[i]
    ensures k < n && j < |WalkKid(node, at, prefix, k)| && f == WalkKid(node, at, prefix, k)[j]
  {
    WhichPart(node, at, prefix, n, i);
    var before := |WalkKids(node, at, prefix, n - 1)|;
    if i < before {
      k, j := WhichKid(node, at, prefix, n - 1, i, f);
    } else {
      k, j := n - 1, i - before;
    }
  }

  lemma {:induction false} KidIsSound(root: Json, at: Address, node: Json, prefix: string, k: nat, i: nat, f: Found)
    requires Get(root, at) == Some(node) && !IsSeries(node) && k < |Kids(node)|
    requires i < |WalkKid(node, at, prefix, k)| && f == WalkKid(node, at, prefix, k)[i]
    ensures Visible(root, at, f.at) && f.at[|at|] == k && Truthful(root, f)
    decreases node, k
  {
    assert (at + [k])[..|at|] == at;
    VisibleBelow(root, at, k, f.at);
    if !IsResolvent(Kids(node)[k]) {
      WalkIsSound(root, at + [k], Kids(node)[k], Extend(prefix, node, k), i, f);
    }
  }

  /** The report carries the pointer of its address. */
  ghost predicate Placed(root: Json, f: Found) {
    Get(root, f.at) == Some(f.obj) && f.path == PathText(root, f.at)
  }

  lemma {:induction false} WalkPaths(root: Json, at: Address, node: Json, prefix: string, i: nat, f: Found)
    requires Get(root, at) == Some(node) && prefix == PathText(root, at)
    requires i < |Walk(node, at, prefix)| && f == Walk(node, at, prefix)[i]
    ensures Placed(root, f)
    decreases node, |Kids(node)| + 1
  {
    var k, j := WhichKid(node, at, prefix, |Kids(node)|, i, f);
    KidPath(root, at, node, prefix, k, j, f);
  }

  lemma {:induction false} KidPath(root: Json, at: Address, node: Json, prefix: string, k: nat, i: nat, f: Found)
    requires Get(root, at) == Some(node) && prefix == PathText(root, at) && k < |Kids(node)|
    requires i < |WalkKid(node, at, prefix, k)| && f == WalkKid(node, at, prefix, k)[i]
    ensures Placed(root, f)
    decreases node, k
  {
    NextPath(root, at, node, prefix, k);
    if !IsResolvent(Kids(node)[k]) {
      WalkPaths(root, at + [k], Kids(node)[k], Extend(prefix, node, k), i, f);
    }
  }

  lemma NextPath(root: Json, at: Address, node: Json, prefix: string, i: nat)
    requires Get(root, at) == Some(node) && i < |Kids(node)| && prefix == PathText(root, at)
    ensures Get(root, at + [i]) == Some(Kids(node)[i]) && Extend(prefix, node, i) == PathText(root, at + [i])
  {
    assert (at + [i])[..|at|] == at;
  }

  /** Completeness: every visible resolvent is reported. */
  lemma {:induction false} WalkIsComplete(root: Json, at: Address, node: Json, prefix: string, a: Address)
    requires Get(root, at) == Some(node) && Visible(root, at, a)
    ensures Lists(Walk(node, at, prefix), a)
    decreases node, |Kids(node)| + 1
  {
    assert a[..|at|] == at && Open(root, a[..|at|], true);
    PrefixReaches(root, a, |at| + 1);
    assert a[..|at| + 1][..|at|] == at;
    KidsAreComplete(root, at, node, prefix, |Kids(node)|, a);
  }

  lemma {:induction false} KidsAreComplete(root: Json, at: Address, node: Json, prefix: string, n: nat, a: Address)
    requires Get(root, at) == Some(node) && Visible(root, at, a) && !IsSeries(node)
    requires n <= |Kids(node)| && a[|at|] < n
    ensures Lists(WalkKids(node, at, prefix, n), a)
    decreases node, n
  {
    if a[|at|] < n - 1 {
      KidsAreComplete(root, at, node, prefix, n - 1, a);
    } else {
      KidIsComplete(root, at, node, prefix, n - 1, a);
    }
    ListsEither(WalkKids(node, at, prefix, n - 1), WalkKid(node, at, prefix, n - 1), a);
  }

  lemma {:induction false} KidIsComplete(root: Json, at: Address, node: Json, prefix: string, i: nat, a: Address)
    requires Get(root, at) == Some(node) && Visible(root, at, a) && !IsSeries(node)
    requires i < |Kids(node)| && a[|at|] == i
    ensures Lists(WalkKid(node, at, prefix, i), a)
    decreases node, i
  {
    VisibleBelow(root, at, i, a);
    if IsResolvent(Kids(node)[i]) {
      assert WalkKid(node, at, prefix, i)[0].at == a;
    } else {
      WalkIsComplete(root, at + [i], Kids(node)[i], Extend(prefix, node, i), a);
    }
  }

  lemma ListsEither(s: seq<Found>, t: seq<Found>, a: Address)
    requires Lists(s, a) || Lists(t, a)
    ensures Lists(s + t, a)
  {
    if Lists(s, a) {
      var i :| 0 <= i < |s| && s[i].at == a;
      assert (s + t)[i].at == a;
    } else {
      var i :| 0 <= i < |t| && t[i].at == a;
      assert (s + t)[|s| + i].at == a;
    }
  }

  /** Reports come in document order, and no report lies within another. */
  lemma {:induction false} WalkIsInOrder(root: Json, at: Address, node: Json, prefix: string, found: seq<Found>)
    requires Get(root, at) == Some(node) && found == Walk(node, at, prefix)
    ensures InOrder(found)
    decreases node, |Kids(node)| + 1
  {
    if !IsSeries(node) { KidsAreInOrder(root, at, node, prefix, |Kids(node)|, found); }
  }

  lemma {:induction false} KidsAreInOrder(root: Json, at: Address, node: Json, prefix: string, n: nat,
                                          found: seq<Found>)
    requires Get(root, at) == Some(node) && !IsSeries(node) && n <= |Kids(node)|
    requires found == WalkKids(node, at, prefix, n)
    ensures InOrder(found)
    decreases node, n
  {
    if n > 0 {
      var before, last := WalkKids(node, at, prefix, n - 1), WalkKid(node, at, prefix, n - 1);
      KidsAreInOrder(root, at, node, prefix, n - 1, before);
      KidIsInOrder(root, at, node, prefix, n - 1, last);
      EarlierKids(root, at, node, prefix, n - 1, before, last);
      OrderedJoin(before, last, found);
    }
  }

  /** What the first n children report comes before what the next one does. */
  lemma EarlierKids(root: Json, at: Address, node: Json, prefix: string, n: nat, before: seq<Found>, last: seq<Found>)
    requires Get(root, at) == Some(node) && !IsSeries(node) && n < |Kids(node)|
    requires before == WalkKids(node, at, prefix, n) && last == WalkKid(node, at, prefix, n)
    ensures AllSooner(before, last)
  {
    forall i: nat, k: nat | i < |before| && k < |last| ensures Sooner(before[i].at, last[k].at) {
      EarlierKid(root, at, node, prefix, n, i, k);
    }
  }

  ghost predicate AllSooner(s: seq<Found>, t: seq<Found>) {
    forall i: nat, k: nat | i < |s| && k < |t| :: Sooner(s[i].at, t[k].at)
  }

  lemma {:induction false} KidIsInOrder(root: Json, at: Address, node: Json, prefix: string, i: nat, found: seq<Found>)
    requires Get(root, at) == Some(node) && i < |Kids(node)| && found == WalkKid(node, at, prefix, i)
    ensures InOrder(found)
    decreases node, i
  {
    assert (at + [i])[..|at|] == at;
    if !IsResolvent(Kids(node)[i]) {
      WalkIsInOrder(root, at + [i], Kids(node)[i], Extend(prefix, node, i), found);
    }
  }

  lemma EarlierKid(root: Json, at: Address, node: Json, prefix: string, n: nat, i: nat, k: nat)
    requires Get(root, at) == Some(node) && !IsSeries(node) && n < |Kids(node)|
    requires i < |WalkKids(node, at, prefix, n)| && k < |WalkKid(node, at, prefix, n)|
    ensures Sooner(WalkKids(node, at, prefix, n)[i].at, WalkKid(node, at, prefix, n)[k].at)
  {
    var f, g := WalkKids(node, at, prefix, n)[i], WalkKid(node, at, prefix, n)[k];
    KidsAreSound(root, at, node, prefix, n, i, f);
    KidIsSound(root, at, node, prefix, n, k, g);
    SoonerAt(at, f.at, g.at);
  }

  lemma SoonerAt(at: Address, a: Address, b: Address)
    requires Prefix(at, a) && Prefix(at, b) && |at| < |a| && |at| < |b| && a[|at|] < b[|at|]
    ensures Sooner(a, b)
  {
    assert a[..|at|] == b[..|at|];
  }

  lemma OrderedJoin(s: seq<Found>, t: seq<Found>, all: seq<Found>)
    requires InOrder(s) && InOrder(t) && AllSooner(s, t) && all == s + t
    ensures InOrder(all)
  {
  }

  lemma SoonerIsApart(a: Address, b: Address)
    requires Sooner(a, b)
    ensures Apart(a, b)
  {
    var n: nat :| n < |a| && n < |b| && a[..n] == b[..n] && a[n] < b[n];
    assert |a| <= |b| ==> b[..|a|][n] != a[n];
    assert |b| <= |a| ==> a[..|b|][n] != b[n];
  }

  // ----- Find ------------------------------------------------------------------------------------

  /** Where the first n segments of a container path lead. */
  function Locate(root: Json, segments: seq<string>, n: nat): (at: Option<Address>)
    requires n <= |segments|
    ensures at.Some? ==> Get(root, at.value).Some? && |at.value| == n
  {
    if n == 0 then Some([])
    else
      match Locate(root, segments, n - 1)
      case None => None
      case Some(at) =>
        var m := Get(root, at).value;
        if Field(m, segments[n - 1]).None? then None
        else
          var i := Position(m.keys, segments[n - 1], 0);
          assert (at + [i])[..|at|] == at;
          Some(at + [i])
  }

  /** Child i of the object sits under this key. */
  predicate SitsUnder(j: Json, i: nat, key: string) {
    j.Obj? && |j.keys| == |j.items| && i < |j.keys| && j.keys[i] == key
  }

  /** Step i of the address leads to the child under segment i. */
  predicate Steps(root: Json, segments: seq<string>, a: Address, i: nat) {
    && i < |a| && i < |segments| && Get(root, a[..i]).Some?
    && SitsUnder(Get(root, a[..i]).value, a[i], segments[i])
  }

  /** The address whose steps are the keys, one by one, and no other. */
  lemma {:induction false} LocateMeans(root: Json, segments: seq<string>, n: nat, a: Address)
    requires WellFormed(root) && n <= |segments|
    ensures Locate(root, segments, n) == Some(a) <==> |a| == n && forall i: nat | i < n :: Steps(root, segments, a, i)
  {
    if n > 0 && |a| == n {
      LocateMeans(root, segments, n - 1, a[..n - 1]);
      FewerSteps(root, segments, a);
      LocateOneMore(root, segments, a);
    }
  }

  lemma LocateOneMore(root: Json, segments: seq<string>, a: Address)
    requires WellFormed(root) && 0 < |a| <= |segments|
    ensures var n := |a|;
            Locate(root, segments, n) == Some(a) <==>
            Locate(root, segments, n - 1) == Some(a[..n - 1]) && Steps(root, segments, a, n - 1)
  {
    var n, init := |a| - 1, a[..|a| - 1];
    if Get(root, init).Some? {
      NodesAreWellFormed(root, init);
      OnlyPosition(Get(root, init).value, segments[n], a[n]);
    }
    assert a == init + [a[n]];
    if Locate(root, segments, n + 1) == Some(a) {
      var at := Locate(root, segments, n).value;
      var i := Position(Get(root, at).value.keys, segments[n], 0);
      assert (at + [i])[..n] == at;
    }
  }

  lemma FewerSteps(root: Json, segments: seq<string>, a: Address)
    requires a != []
    ensures var init := a[..|a| - 1];
            (forall i: nat | i < |a| :: Steps(root, segments, a, i)) <==>
            (forall i: nat | i < |a| - 1 :: Steps(root, segments, init, i)) && Steps(root, segments, a, |a| - 1)
  {
    var init := a[..|a| - 1];
    forall i: nat | i < |a| - 1 ensures Steps(root, segments, a, i) <==> Steps(root, segments, init, i) {
      assert init[..i] == a[..i];
    }
  }

  lemma OnlyPosition(j: Json, key: string, i: nat)
    requires WellFormed(j)
    ensures SitsUnder(j, i, key) <==> Field(j, key).Some? && i == Position(j.keys, key, 0)
  {
    if SitsUnder(j, i, key) { PositionOf(j.keys, i); }
  }

  /** The segments of a container path; the empty path is the document itself. */
  function Segments(path: string): seq<string> {
    if path == "" then [] else Split(path, '.')
  }

  /** pointerOf, for the first n segments. */
  function PointerOf(segments: seq<string>, n: nat): string
    requires n <= |segments|
  {
    if n == 0 then "" else PointerOf(segments, n - 1) + ['/'] + Escape(segments[n - 1])
  }

  function Container(root: Json, path: string): (at: Option<Address>)
    ensures at.Some? ==> Get(root, at.value).Some?
  {
    Locate(root, Segments(path), |Segments(path)|)
  }

  /** The container is itself a resolvent in somebody's slot. */
  predicate SelfResolvent(root: Json, at: Address)
    requires Get(root, at).Some?
  {
    at != [] && IsResolvent(Get(root, at).value)
  }

  /** Find as a function. */
  function FindAll(root: Json, path: string): seq<Found> {
    match Container(root, path)
    case None => []
    case Some(at) =>
      var node, prefix := Get(root, at).value, PointerOf(Segments(path), |Segments(path)|);
      if SelfResolvent(root, at) then [Report(node, at, prefix, Segments(path)[|at| - 1])]
      else Walk(node, at, prefix)
  }

  /** What Find should report: the container itself, or what is visible inside it. */
  ghost predicate Reportable(root: Json, path: string, a: Address) {
    && Container(root, path).Some?
    && var at := Container(root, path).value;
    if SelfResolvent(root, at) then a == at else Visible(root, at, a)
  }

  lemma KeyPath(root: Json, at: Address, key: string, prefix: string)
    requires Get(root, at).Some? && Field(Get(root, at).value, key).Some? && prefix == PathText(root, at)
    ensures var i := Position(Get(root, at).value.keys, key, 0);
            Get(root, at + [i]).Some? && prefix + ['/'] + Escape(key) == PathText(root, at + [i])
  {
    var m := Get(root, at).value;
    NextPath(root, at, m, prefix, Position(m.keys, key, 0));
  }

  lemma LocateNext(root: Json, segments: seq<string>, n: nat)
    requires 0 < n <= |segments| && Locate(root, segments, n).Some?
    ensures Locate(root, segments, n - 1).Some?
    ensures var at := Locate(root, segments, n - 1).value;
            && Field(Get(root, at).value, segments[n - 1]).Some?
            && Locate(root, segments, n).value == at + [Position(Get(root, at).value.keys, segments[n - 1], 0)]
  {
  }

  lemma {:induction false} PointerOfReads(root: Json, segments: seq<string>, n: nat)
    requires n <= |segments| && Locate(root, segments, n).Some?
    ensures PointerOf(segments, n) == PathText(root, Locate(root, segments, n).value)
  {
    if n > 0 {
      PointerOfReads(root, segments, n - 1);
      LocateNext(root, segments, n);
      KeyPath(root, Locate(root, segments, n - 1).value, segments[n - 1], PointerOf(segments, n - 1));
    }
  }

  /** Exactly the reportable resolvents, once each and in document order, and true of the document. */
  ghost predicate Exact(root: Json, path: string, found: seq<Found>) {
    && (forall a :: Lists(found, a) <==> Reportable(root, path, a))
    && (forall f | f in found :: Truthful(root, f))
    && InOrder(found)
  }

  /** Find reports exactly that. */
  lemma FindIsExact(root: Json, path: string)
    ensures Exact(root, path, FindAll(root, path))
  {
    if Container(root, path).Some? {
      if SelfResolvent(root, Container(root, path).value) {
        SelfIsExact(root, path);
      } else {
        InsideIsExact(root, path);
      }
    }
  }

  lemma SelfIsExact(root: Json, path: string)
    requires Container(root, path).Some? && SelfResolvent(root, Container(root, path).value)
    ensures Exact(root, path, FindAll(root, path))
  {
    var at, segments := Container(root, path).value, Segments(path);
    LocateParent(root, segments);
    var f := Report(Get(root, at).value, at, PointerOf(segments, |segments|), segments[|at| - 1]);
    SelfIsTruthful(root, at, segments[|at| - 1], f);
    OneIsExact(root, path, f);
  }

  lemma SelfIsTruthful(root: Json, at: Address, key: string, f: Found)
    requires at != [] && Get(root, at).Some? && IsResolvent(Get(root, at).value) && Get(root, at[..|at| - 1]).Some?
    requires at[|at| - 1] < |Kids(Get(root, at[..|at| - 1]).value)|
    requires KeyOf(Get(root, at[..|at| - 1]).value, at[|at| - 1]) == key
    requires f == Report(Get(root, at).value, at, f.path, key)
    ensures Truthful(root, f)
  {
  }

  lemma OneIsExact(root: Json, path: string, f: Found)
    requires Container(root, path) == Some(f.at) && SelfResolvent(root, f.at) && Truthful(root, f)
    ensures Exact(root, path, [f])
  {
    forall a ensures Lists([f], a) <==> a == f.at { assert [f][0] == f; }
  }

  lemma InsideIsExact(root: Json, path: string)
    requires Container(root, path).Some? && !SelfResolvent(root, Container(root, path).value)
    ensures Exact(root, path, FindAll(root, path))
  {
    var at, segments := Container(root, path).value, Segments(path);
    WalkIsExact(root, at, Get(root, at).value, PointerOf(segments, |segments|));
  }

  lemma WalkIsExact(root: Json, at: Address, node: Json, prefix: string)
    requires Get(root, at) == Some(node)
    ensures forall a :: Lists(Walk(node, at, prefix), a) <==> Visible(root, at, a)
    ensures forall f | f in Walk(node, at, prefix) :: Truthful(root, f)
    ensures InOrder(Walk(node, at, prefix))
  {
    var found := Walk(node, at, prefix);
    WalkIsInOrder(root, at, node, prefix, found);
    forall i: nat | i < |found| ensures Truthful(root, found[i]) && Visible(root, at, found[i].at) {
      WalkIsSound(root, at, node, prefix, i, found[i]);
    }
    forall a ensures Lists(found, a) <==> Visible(root, at, a) {
      if Visible(root, at, a) { WalkIsComplete(root, at, node, prefix, a); }
    }
  }

  /** Every report is true of the fields. */
  lemma FoundByFields(root: Json, path: string)
    ensures forall f | f in FindAll(root, path) :: ByFields(root, f)
  {
    FindIsExact(root, path);
    var found := FindAll(root, path);
    forall f | f in found ensures ByFields(root, f) {
      var i :| 0 <= i < |found| && found[i] == f;
      assert Lists(found, f.at) && Truthful(root, f);
      TruthByFields(root, f);
    }
  }

  lemma FoundPath(root: Json, path: string, f: Found)
    requires f in FindAll(root, path)
    ensures Placed(root, f)
  {
    var at, segments := Container(root, path).value, Segments(path);
    PointerOfReads(root, segments, |segments|);
    if !SelfResolvent(root, at) {
      var i: nat :| i < |FindAll(root, path)| && FindAll(root, path)[i] == f;
      WalkPaths(root, at, Get(root, at).value, PointerOf(segments, |segments|), i, f);
    }
  }

  /** Each path, read as a JSON pointer, leads to its object. */
  ghost predicate PathsLead(root: Json, found: seq<Found>) {
    forall f | f in found :: Eval(root, f.path) == Some(f.obj)
  }

  /** No path starts another. */
  ghost predicate PrefixFree(found: seq<Found>) {
    forall i, k | 0 <= i < |found| && 0 <= k < |found| && i != k :: !StartsPointer(found[i].path, found[k].path)
  }

  lemma PathsAreGood(root: Json, path: string)
    requires WellFormed(root)
    ensures PathsLead(root, FindAll(root, path)) && PrefixFree(FindAll(root, path))
  {
    FindIsExact(root, path);
    var found := FindAll(root, path);
    forall f | f in found ensures Placed(root, f) { FoundPath(root, path, f); }
    PlacedPathsLead(root, found);
    PlacedPathsAreFree(root, found);
  }

  lemma PlacedPathsLead(root: Json, found: seq<Found>)
    requires WellFormed(root) && forall f | f in found :: Placed(root, f)
    ensures PathsLead(root, found)
  {
    forall f | f in found ensures Eval(root, f.path) == Some(f.obj) {
      assert Placed(root, f);
      PathTextReads(root, f.at);
    }
  }

  lemma PlacedPathsAreFree(root: Json, found: seq<Found>)
    requires WellFormed(root) && InOrder(found) && forall f | f in found :: Placed(root, f)
    ensures PrefixFree(found)
  {
    forall i, k | 0 <= i < |found| && 0 <= k < |found| && i != k ensures !StartsPointer(found[i].path, found[k].path) {
      assert Placed(root, found[i]) && Placed(root, found[k]);
      TwoPaths(root, found, i, k);
    }
  }

  lemma TwoPaths(root: Json, found: seq<Found>, i: nat, k: nat)
    requires WellFormed(root) && InOrder(found) && i < |found| && k < |found| && i != k
    requires Get(root, found[i].at).Some? && found[i].path == PathText(root, found[i].at)
    requires Get(root, found[k].at).Some? && found[k].path == PathText(root, found[k].at)
    ensures !StartsPointer(found[i].path, found[k].path)
  {
    if i < k { SoonerIsApart(found[i].at, found[k].at); } else { SoonerIsApart(found[k].at, found[i].at); }
    ApartPointers(root, found[i].at, found[k].at);
  }

  lemma LocateParent(root: Json, segments: seq<string>)
    requires segments != [] && Locate(root, segments, |segments|).Some?
    ensures var n, at := |segments| - 1, Locate(root, segments, |segments|).value;
            && Get(root, at[..n]).Some? && at[n] < |Kids(Get(root, at[..n]).value)|
            && KeyOf(Get(root, at[..n]).value, at[n]) == segments[n]
  {
    var n, at := |segments| - 1, Locate(root, segments, |segments|).value;
    assert at[..n] == Locate(root, segments, n).value;
  }

  // ----- The loops ---------------------------------------------------------------------------------

  /** walk. */
  method WalkNode(node: Json, at: Address, prefix: string) returns (found: seq<Found>)
    ensures found == Walk(node, at, prefix)
    decreases node, |Kids(node)| + 1
  {
    found := [];
    if IsSeries(node) { return; }
    for i := 0 to |Kids(node)|
      invariant found == WalkKids(node, at, prefix, i)
    {
      var more := WalkElement(node, at, prefix, i);
      found := found + more;
    }
  }

  /** The loop body of walk: a resolvent is reported, anything else searched. */
  method WalkElement(node: Json, at: Address, prefix: string, i: nat) returns (found: seq<Found>)
    requires i < |Kids(node)|
    ensures found == WalkKid(node, at, prefix, i)
    decreases node, i
  {
    var kid, path := Kids(node)[i], Extend(prefix, node, i);
    if IsResolvent(kid) {
      found := [Report(kid, at + [i], path, KeyOf(node, i))];
    } else {
      found := WalkNode(kid, at + [i], path);
    }
  }

  /** locateContainer. */
  method LocateContainer(root: Json, path: string) returns (at: Option<Address>)
    ensures at == Container(root, path)
  {
    at := Some([]);
    var segments := Segments(path);
    for n := 0 to |segments|
      invariant at == Locate(root, segments, n) && at.Some?
    {
      var m := Get(root, at.value).value;
      if Field(m, segments[n]).None? {
        Missing(root, segments, n + 1);
        return None;
      }
      at := Some(at.value + [Position(m.keys, segments[n], 0)]);
    }
  }

  lemma {:induction false} Missing(root: Json, segments: seq<string>, n: nat)
    requires n <= |segments| && Locate(root, segments, n).None?
    ensures Locate(root, segments, |segments|).None?
    decreases |segments| - n
  {
    if n < |segments| { Missing(root, segments, n + 1); }
  }

  /** Find. */
  method Find(root: Json, path: string) returns (found: seq<Found>)
    ensures found == FindAll(root, path) && Exact(root, path, found)
    ensures forall f | f in found :: ByFields(root, f)
    ensures WellFormed(root) ==> PathsLead(root, found) && PrefixFree(found)
  {
    FindIsExact(root, path);
    FoundByFields(root, path);
    if WellFormed(root) { PathsAreGood(root, path); }
    var at := LocateContainer(root, path);
    if at.None? { return []; }
    var node, segments := Get(root, at.value).value, Segments(path);
    var prefix := "";
    for n := 0 to |segments|
      invariant prefix == PointerOf(segments, n)
    {
      prefix := prefix + ['/'] + Escape(segments[n]);
    }
    if SelfResolvent(root, at.value) {
      return [Report(node, at.value, prefix, segments[|segments| - 1])];
    }
    found := WalkNode(node, at.value, prefix);
  }
}
