/** Filling an object: every reference below it replaced by the value it stands for, and nothing else changed. */
module Filling {
  import opened Wrappers
  import opened Json
  import opened Paths
  import opened References

  // ----- Filling --------------------------------------------------------------------------------

  /** The value a reference stands for. */
  function RefValue(ref: Json, deps: map<string, nat>, docs: map<nat, Json>): Option<Json> {
    match ParseRef(ref)
    case None => None
    case Some(r) => if r.from in deps && deps[r.from] in docs then EvalPath(docs[deps[r.from]], r.path, 0) else None
  }

  /** A copy of j with every reference below it replaced by its value. */
  function Refilled(j: Json, deps: map<string, nat>, docs: map<nat, Json>): Option<Json>
    decreases j, |Kids(j)| + 1
  {
    match j
    case Arr(items) =>
      var kids := RefilledKids(j, deps, docs, |items|);
      if kids.None? then None else Some(Arr(kids.value))
    case Obj(keys, items) =>
      var kids := RefilledKids(j, deps, docs, |items|);
      if kids.None? then None else Some(Obj(keys, kids.value))
    case _ => Some(j)
  }

  function RefilledKids(j: Json, deps: map<string, nat>, docs: map<nat, Json>, n: nat): (kids: Option<seq<Json>>)
    requires n <= |Kids(j)|
    ensures kids.Some? ==> |kids.value| == n
    decreases j, n
  {
    if n == 0 then Some([])
    else
      var start, last := RefilledKids(j, deps, docs, n - 1), RefilledKid(Kids(j)[n - 1], deps, docs);
      if start.None? || last.None? then None else Some(start.value + [last.value])
  }

  function RefilledKid(kid: Json, deps: map<string, nat>, docs: map<nat, Json>): Option<Json>
    decreases kid, |Kids(kid)| + 2
  {
    if IsRef(kid) then RefValue(kid, deps, docs) else Refilled(kid, deps, docs)
  }

  predicate NoRefs(j: Json)
    decreases j, |Kids(j)| + 1
  {
    NoRefsInKids(j, |Kids(j)|)
  }

  predicate NoRefsInKids(j: Json, n: nat)
    requires n <= |Kids(j)|
    decreases j, n
  {
    n == 0 || (NoRefsInKids(j, n - 1) && !IsRef(Kids(j)[n - 1]) && NoRefs(Kids(j)[n - 1]))
  }

  lemma EachEmpty(j: Json, n: nat, i: nat)
    requires i < n <= |Kids(j)| && |RefsInKids(j, n)| == 0
    ensures !IsRef(Kids(j)[i]) && |RefsIn(Kids(j)[i])| == 0
  {
    FewerEmpty(j, n, i + 1);
    NoRefsLast(j, i + 1);
  }

  lemma {:induction false} FewerEmpty(j: Json, n: nat, m: nat)
    requires m <= n <= |Kids(j)| && |RefsInKids(j, n)| == 0
    ensures |RefsInKids(j, m)| == 0
    decreases n
  {
    if m < n { FewerEmpty(j, n - 1, m); }
  }

  lemma {:induction false} NoneTogether(j: Json, n: nat)
    requires n <= |Kids(j)| && forall i | 0 <= i < n :: !IsRef(Kids(j)[i]) && NoRefs(Kids(j)[i])
    ensures NoRefsInKids(j, n)
  {
    if n > 0 { NoneTogether(j, n - 1); }
  }

  /** What RefsIn lists is all there is. */
  lemma {:induction false} NoneBelow(j: Json)
    requires |RefsIn(j)| == 0
    ensures NoRefs(j)
    decreases j
  {
    forall i: nat | i < |Kids(j)| ensures !IsRef(Kids(j)[i]) && NoRefs(Kids(j)[i]) {
      EachEmpty(j, |Kids(j)|, i);
      NoneBelow(Kids(j)[i]);
    }
    NoneTogether(j, |Kids(j)|);
  }

  /** Without references there is nothing to fill. */
  lemma {:induction false} NothingToFill(j: Json, deps: map<string, nat>, docs: map<nat, Json>)
    requires NoRefs(j)
    ensures Refilled(j, deps, docs) == Some(j)
    decreases j, |Kids(j)| + 1
  {
    NothingInKids(j, deps, docs, |Kids(j)|);
    assert RefilledKids(j, deps, docs, |Kids(j)|).value == Kids(j);
  }

  lemma {:induction false} NothingInKids(j: Json, deps: map<string, nat>, docs: map<nat, Json>, n: nat)
    requires n <= |Kids(j)| && NoRefsInKids(j, n)
    ensures Same(j, deps, docs, n)
    decreases j, n
  {
    if n > 0 {
      NothingInKids(j, deps, docs, n - 1);
      NothingToFill(Kids(j)[n - 1], deps, docs);
      SameNext(j, deps, docs, n);
    }
  }

  predicate Same(j: Json, deps: map<string, nat>, docs: map<nat, Json>, n: nat)
    requires n <= |Kids(j)|
  {
    var kids := RefilledKids(j, deps, docs, n);
    kids.Some? && forall i | 0 <= i < n :: kids.value[i] == Kids(j)[i]
  }

  lemma SameNext(j: Json, deps: map<string, nat>, docs: map<nat, Json>, n: nat)
    requires 0 < n <= |Kids(j)| && Same(j, deps, docs, n - 1)
    requires RefilledKid(Kids(j)[n - 1], deps, docs) == Some(Kids(j)[n - 1])
    ensures Same(j, deps, docs, n)
  {
  }

  lemma NoRefsLast(j: Json, n: nat)
    requires 0 < n <= |Kids(j)| && |RefsInKids(j, n)| == 0
    ensures |RefsInKids(j, n - 1)| == 0 && !IsRef(Kids(j)[n - 1]) && |RefsIn(Kids(j)[n - 1])| == 0
  {
  }

  // ----- What a filled object holds ---------------------------------------------------------------

  /** The reference names a resolvent whose series is at hand, and its path selects v in it. */
  ghost predicate HasValue(ref: Json, deps: map<string, nat>, docs: map<nat, Json>, v: Json) {
    && ParseRef(ref).Some?
    && var r := ParseRef(ref).value;
    && r.from in deps && deps[r.from] in docs && Selects(docs[deps[r.from]], r.path, v)
  }

  lemma RefValueMeans(ref: Json, deps: map<string, nat>, docs: map<nat, Json>, v: Json)
    ensures RefValue(ref, deps, docs) == Some(v) <==> HasValue(ref, deps, docs, v)
  {
    if ParseRef(ref).Some? {
      var r := ParseRef(ref).value;
      ParsePathMeans(RefPath(ref).value, r.path);
      if r.from in deps && deps[r.from] in docs { EvalPathMeans(docs[deps[r.from]], r.path, v); }
    }
  }

  /** The same kind of node: equal leaves, arrays as long, objects with the same keys. */
  predicate SameShell(x: Option<Json>, y: Option<Json>) {
    match (x, y)
    case (Some(Arr(s)), Some(Arr(t))) => |s| == |t|
    case (Some(Obj(keys, s)), Some(Obj(others, t))) => keys == others && |s| == |t|
    case _ => x == y
  }

  /** Address by address: the value where an outermost reference stands, the same node everywhere outside references. */
  ghost predicate Fills(j: Json, deps: map<string, nat>, docs: map<nat, Json>, out: Json) {
    && (forall a | Outermost(j, a) :: Get(out, a).Some? && HasValue(Get(j, a).value, deps, docs, Get(out, a).value))
    && forall a | Outside(j, a) :: SameShell(Get(j, a), Get(out, a))
  }

  lemma KidRefilled(j: Json, deps: map<string, nat>, docs: map<nat, Json>, out: Json, i: nat)
    requires Refilled(j, deps, docs) == Some(out)
    ensures |Kids(out)| == |Kids(j)| && SameShell(Some(j), Some(out))
    ensures i < |Kids(j)| ==> RefilledKid(Kids(j)[i], deps, docs) == Some(Kids(out)[i])
  {
    if i < |Kids(j)| { KidAt(j, deps, docs, |Kids(j)|, i); }
  }

  lemma {:induction false} KidAt(j: Json, deps: map<string, nat>, docs: map<nat, Json>, n: nat, i: nat)
    requires i < n <= |Kids(j)| && RefilledKids(j, deps, docs, n).Some?
    ensures RefilledKid(Kids(j)[i], deps, docs) == Some(RefilledKids(j, deps, docs, n).value[i])
    decreases n
  {
    if i < n - 1 { KidAt(j, deps, docs, n - 1, i); }
  }

  /** Outside references the copy has the refilled nodes, and no others. */
  lemma {:induction false} NodeRefilled(j: Json, deps: map<string, nat>, docs: map<nat, Json>, out: Json, a: Address)
    requires Refilled(j, deps, docs) == Some(out) && Outside(j, a)
    ensures Get(j, a).Some? <==> Get(out, a).Some?
    ensures Get(j, a).Some? ==> Refilled(Get(j, a).value, deps, docs) == Some(Get(out, a).value)
    decreases |a|
  {
    if a != [] {
      var n := |a| - 1;
      OutsideAbove(j, a, n);
      NodeRefilled(j, deps, docs, out, a[..n]);
      if Get(j, a[..n]).Some? {
        KidRefilled(Get(j, a[..n]).value, deps, docs, Get(out, a[..n]).value, a[n]);
        assert a[..|a|] == a;
      }
    }
  }

  lemma OutsideAbove(j: Json, a: Address, n: nat)
    requires n <= |a| && Outside(j, a)
    ensures Outside(j, a[..n])
  {
    forall k | 0 < k <= n ensures !RefAt(j, a[..n][..k]) { assert a[..n][..k] == a[..k]; }
  }

  lemma RefilledFills(j: Json, deps: map<string, nat>, docs: map<nat, Json>, out: Json)
    requires Refilled(j, deps, docs) == Some(out)
    ensures Fills(j, deps, docs, out)
  {
    forall a | Outermost(j, a)
      ensures Get(out, a).Some? && HasValue(Get(j, a).value, deps, docs, Get(out, a).value)
    {
      var n := |a| - 1;
      NodeRefilled(j, deps, docs, out, a[..n]);
      KidRefilled(Get(j, a[..n]).value, deps, docs, Get(out, a[..n]).value, a[n]);
      RefValueMeans(Get(j, a).value, deps, docs, Get(out, a).value);
    }
    forall a | Outside(j, a) ensures SameShell(Get(j, a), Get(out, a)) {
      NodeRefilled(j, deps, docs, out, a);
      if Get(j, a).Some? { KidRefilled(Get(j, a).value, deps, docs, Get(out, a).value, 0); }
    }
  }

  /** A child that is no reference is filled in turn. */
  lemma FillsKid(j: Json, deps: map<string, nat>, docs: map<nat, Json>, out: Json, i: nat)
    requires Fills(j, deps, docs, out) && i < |Kids(j)| && i < |Kids(out)| && !IsRef(Kids(j)[i])
    ensures Fills(Kids(j)[i], deps, docs, Kids(out)[i])
  {
    var x, y := Kids(j)[i], Kids(out)[i];
    forall b | Outermost(x, b) ensures Get(y, b).Some? && HasValue(Get(x, b).value, deps, docs, Get(y, b).value) {
      OutermostBelow(j, i, b);
      GetBelow(j, i, b);
      GetBelow(out, i, b);
    }
    forall b | Outside(x, b) ensures SameShell(Get(x, b), Get(y, b)) {
      OutsideBelow(j, i, b);
      GetBelow(j, i, b);
      GetBelow(out, i, b);
    }
  }

  lemma RefKid(j: Json, deps: map<string, nat>, docs: map<nat, Json>, out: Json, i: nat)
    requires Fills(j, deps, docs, out) && i < |Kids(j)| && i < |Kids(out)| && IsRef(Kids(j)[i])
    ensures RefValue(Kids(j)[i], deps, docs) == Some(Kids(out)[i])
  {
    OutermostBelow(j, i, []);
    GetBelow(j, i, []);
    GetBelow(out, i, []);
    RefValueMeans(Kids(j)[i], deps, docs, Kids(out)[i]);
  }

  /** Only the filled copy holds that. */
  lemma {:induction false} FillsIsRefilled(j: Json, deps: map<string, nat>, docs: map<nat, Json>, out: Json)
    requires Fills(j, deps, docs, out)
    ensures Refilled(j, deps, docs) == Some(out)
    decreases j
  {
    assert Outside(j, []) && SameShell(Get(j, []), Get(out, []));
    forall i: nat | i < |Kids(j)| ensures RefilledKid(Kids(j)[i], deps, docs) == Some(Kids(out)[i]) {
      if IsRef(Kids(j)[i]) {
        RefKid(j, deps, docs, out, i);
      } else {
        FillsKid(j, deps, docs, out, i);
        FillsIsRefilled(Kids(j)[i], deps, docs, Kids(out)[i]);
      }
    }
    KidsTogether(j, deps, docs, Kids(out), |Kids(j)|);
    assert Kids(out)[..|Kids(j)|] == Kids(out);
  }

  lemma {:induction false} KidsTogether(j: Json, deps: map<string, nat>, docs: map<nat, Json>, kids: seq<Json>, n: nat)
    requires n <= |Kids(j)| == |kids|
    requires forall i | 0 <= i < n :: RefilledKid(Kids(j)[i], deps, docs) == Some(kids[i])
    ensures RefilledKids(j, deps, docs, n) == Some(kids[..n])
  {
    if n > 0 {
      KidsTogether(j, deps, docs, kids, n - 1);
      assert kids[..n] == kids[..n - 1] + [kids[n - 1]];
    }
  }

  /** Filling an object is exactly that. */
  lemma FillingMeans(j: Json, deps: map<string, nat>, docs: map<nat, Json>, out: Json)
    ensures Refilled(j, deps, docs) == Some(out) <==> Fills(j, deps, docs, out)
  {
    if Refilled(j, deps, docs) == Some(out) { RefilledFills(j, deps, docs, out); }
    if Fills(j, deps, docs, out) { FillsIsRefilled(j, deps, docs, out); }
  }

  // ----- What cannot be filled --------------------------------------------------------------------

  ghost predicate Valueless(ref: Json, deps: map<string, nat>, docs: map<nat, Json>) {
    forall v :: !HasValue(ref, deps, docs, v)
  }

  ghost predicate Unfillable(j: Json, deps: map<string, nat>, docs: map<nat, Json>) {
    exists a :: Outermost(j, a) && Valueless(Get(j, a).value, deps, docs)
  }

  /** Filling fails exactly on an outermost reference without a value. */
  lemma FillingFails(j: Json, deps: map<string, nat>, docs: map<nat, Json>)
    ensures Refilled(j, deps, docs).None? <==> Unfillable(j, deps, docs)
  {
    if Refilled(j, deps, docs).None? {
      NotFilled(j, deps, docs);
    } else {
      RefilledFills(j, deps, docs, Refilled(j, deps, docs).value);
    }
  }

  lemma {:induction false} NotFilled(j: Json, deps: map<string, nat>, docs: map<nat, Json>)
    requires Refilled(j, deps, docs).None?
    ensures Unfillable(j, deps, docs)
    decreases j
  {
    var i := KidNotFilled(j, deps, docs, |Kids(j)|);
    var kid, b: Address := Kids(j)[i], [];
    if IsRef(kid) {
      forall v ensures !HasValue(kid, deps, docs, v) { RefValueMeans(kid, deps, docs, v); }
    } else {
      NotFilled(kid, deps, docs);
      b :| Outermost(kid, b) && Valueless(Get(kid, b).value, deps, docs);
    }
    OutermostBelow(j, i, b);
    GetBelow(j, i, b);
  }

  lemma {:induction false} KidNotFilled(j: Json, deps: map<string, nat>, docs: map<nat, Json>, n: nat) returns (i: nat)
    requires n <= |Kids(j)| && RefilledKids(j, deps, docs, n).None?
    ensures i < n && RefilledKid(Kids(j)[i], deps, docs).None?
  {
    if RefilledKids(j, deps, docs, n - 1).None? { i := KidNotFilled(j, deps, docs, n - 1); } else { i := n - 1; }
  }
}
