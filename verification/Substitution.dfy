/** Replacing resolvents in place: each substitution fills one slot and nothing else. */
module Substitution {
  import opened Wrappers
  import opened Json
  import opened Pointer
  import opened Resolver

  const RESOLVENT_KEY := "resolvent"

  // ----- Setting one key of an object ------------------------------------------------------------

  /** The first position whose key does not come before the given one. */
  function Slot(keys: seq<string>, key: string, i: nat): (p: nat)
    requires i <= |keys|
    ensures i <= p <= |keys|
    decreases |keys| - i
  {
    if i == |keys| || !Before(keys[i], key) then i else Slot(keys, key, i + 1)
  }

  function Insert<T>(s: seq<T>, p: nat, x: T): (t: seq<T>)
    requires p <= |s|
    ensures |t| == |s| + 1
    ensures forall i | 0 <= i < |t| :: t[i] == if i < p then s[i] else if i == p then x else s[i - 1]
  {
    s[..p] + [x] + s[p..]
  }

  /** m[key] = x on a JSON object. */
  function SetField(j: Json, key: string, x: Json): Json
    requires j.Obj? && |j.keys| == |j.items|
  {
    var p := Position(j.keys, key, 0);
    if p < |j.keys| then Obj(j.keys, j.items[p := x])
    else
      var q := Slot(j.keys, key, 0);
      Obj(Insert(j.keys, q, key), Insert(j.items, q, x))
  }

  lemma {:induction false} SlotSplits(keys: seq<string>, key: string, i: nat)
    requires i <= |keys| && Ascending(keys) && key !in keys && forall k | 0 <= k < i :: Before(keys[k], key)
    ensures var p := Slot(keys, key, i);
            && (forall k | 0 <= k < p :: Before(keys[k], key))
            && forall k | p <= k < |keys| :: Before(key, keys[k])
    decreases |keys| - i
  {
    if i < |keys| {
      if Before(keys[i], key) {
        SlotSplits(keys, key, i + 1);
      } else {
        BeforeTotal(keys[i], key, 0);
        forall k | i <= k < |keys| ensures Before(key, keys[k]) {
          if k > i { BeforeTransitive(key, keys[i], keys[k], 0); }
        }
      }
    }
  }

  lemma InsertAscends(keys: seq<string>, key: string)
    requires Ascending(keys) && key !in keys
    ensures Ascending(Insert(keys, Slot(keys, key, 0), key))
  {
    SlotSplits(keys, key, 0);
  }

  lemma {:induction false} PositionMissing(keys: seq<string>, key: string, i: nat)
    requires i <= |keys| && Position(keys, key, i) == |keys|
    ensures forall k | i <= k < |keys| :: keys[k] != key
    decreases |keys| - i
  {
    if i < |keys| { PositionMissing(keys, key, i + 1); }
  }

  /** After m[key] = x the key reads x, every other key reads as before. */
  lemma SetFieldReads(j: Json, key: string, x: Json, other: string)
    requires j.Obj? && WellFormed(j) && WellFormed(x)
    ensures WellFormed(SetField(j, key, x)) && Field(SetField(j, key, x), key) == Some(x)
    ensures other != key ==> Field(SetField(j, key, x), other) == Field(j, other)
  {
    if Position(j.keys, key, 0) == |j.keys| {
      PositionMissing(j.keys, key, 0);
      InsertedReads(j, key, x, other);
    }
  }

  lemma InsertedReads(j: Json, key: string, x: Json, other: string)
    requires j.Obj? && WellFormed(j) && WellFormed(x) && key !in j.keys
    ensures var q := Slot(j.keys, key, 0);
            var t := Obj(Insert(j.keys, q, key), Insert(j.items, q, x));
            && WellFormed(t) && Field(t, key) == Some(x) && (other != key ==> Field(t, other) == Field(j, other))
  {
    var q := Slot(j.keys, key, 0);
    var keys, items := Insert(j.keys, q, key), Insert(j.items, q, x);
    InsertAscends(j.keys, key);
    InsertedIsWellFormed(j, keys, items, q, x);
    InsertedFields(j, keys, items, q, key, x, other);
  }

  lemma InsertedFields(j: Json, keys: seq<string>, items: seq<Json>, q: nat, key: string, x: Json, other: string)
    requires j.Obj? && |j.keys| == |j.items| && Ascending(j.keys) && q <= |j.keys|
    requires keys == Insert(j.keys, q, key) && items == Insert(j.items, q, x) && Ascending(keys)
    ensures Field(Obj(keys, items), key) == Some(x)
    ensures other != key ==> Field(Obj(keys, items), other) == Field(j, other)
  {
    FieldAt(Obj(keys, items), q);
    if other != key { OthersRead(j, Obj(keys, items), q, key, other); }
  }

  lemma InsertedIsWellFormed(j: Json, keys: seq<string>, items: seq<Json>, q: nat, x: Json)
    requires j.Obj? && WellFormed(j) && WellFormed(x) && q <= |j.items|
    requires Ascending(keys) && |keys| == |items| && items == Insert(j.items, q, x)
    ensures WellFormed(Obj(keys, items))
  {
    forall i | 0 <= i < |items| ensures WellFormed(items[i]) {
      assert items[i] == if i < q then j.items[i] else if i == q then x else j.items[i - 1];
    }
  }

  lemma OthersRead(j: Json, t: Json, q: nat, key: string, other: string)
    requires j.Obj? && |j.keys| == |j.items| && Ascending(j.keys) && q <= |j.keys| && other != key
    requires t.Obj? && t.keys == Insert(j.keys, q, key) && |t.items| == |t.keys| && Ascending(t.keys)
    requires forall i | 0 <= i < |j.items| :: t.items[if i < q then i else i + 1] == j.items[i]
    ensures Field(t, other) == Field(j, other)
  {
    if other in j.keys {
      var i :| 0 <= i < |j.keys| && j.keys[i] == other;
      FieldAt(j, i);
      FieldAt(t, if i < q then i else i + 1);
    } else {
      FieldMissing(j, other);
      FieldMissing(t, other);
    }
  }

  // ----- One substitution -------------------------------------------------------------------------

  /** What lands in the slot: the series, with the original resolvent attached where the target wants it. */
  function Spliced(series: Json, obj: Json, attach: bool): Json
    requires series.Obj? && WellFormed(series)
  {
    if attach then SetField(series, RESOLVENT_KEY, obj) else series
  }

  lemma SplicedSeries(series: Json, obj: Json, attach: bool)
    requires series.Obj? && WellFormed(series) && WellFormed(obj)
    ensures var s := Spliced(series, obj, attach);
            && WellFormed(s) && s.Obj? && TypeOf(s) == TypeOf(series)
            && (attach ==> Field(s, RESOLVENT_KEY) == Some(obj)) && (!attach ==> s == series)
            && forall key | key != RESOLVENT_KEY :: Field(s, key) == Field(series, key)
  {
    if attach {
      SetFieldReads(series, RESOLVENT_KEY, obj, "type");
      forall key | key != RESOLVENT_KEY ensures Field(Spliced(series, obj, attach), key) == Field(series, key) {
        SetFieldReads(series, RESOLVENT_KEY, obj, key);
      }
    }
  }

  /** The node at b can have children. */
  predicate Inner(root: Json, b: Address) {
    Get(root, b).Some? && (Get(root, b).value.Arr? || Get(root, b).value.Obj?)
  }

  /** Along the way to the slot nodes stay arrays and objects. */
  lemma InnerStays(root: Json, f: Address, x: Json, n: nat)
    requires Inner(root, f) && x.Obj? && n <= |f|
    ensures Inner(root, f[..n]) && Inner(Put(root, f, x), f[..n])
  {
    if n == |f| {
      PutThere(root, f, x);
      assert f[..n] == f;
    } else {
      PutAbove(root, f, x, n);
    }
  }

  /** A node outside the slot keeps its type field. */
  lemma TypesStay(root: Json, f: Address, x: Json, b: Address)
    requires Inner(root, f) && x.Obj? && !Prefix(f, b)
    ensures Get(Put(root, f, x), b).Some? == Get(root, b).Some?
    ensures Get(root, b).Some? ==> TypeOf(Get(Put(root, f, x), b).value) == TypeOf(Get(root, b).value)
  {
    if Prefix(b, f) {
      var n := |b|;
      assert f[..n] == b && n < |f| by { assert f[..|f|] == f; }
      PutAbove(root, f, x, n);
      InnerStays(root, f, x, n + 1);
      assert f[..n + 1][..n] == b;
      KidKeepsType(Get(root, b).value, f[n], Get(Put(root, f, x), f[..n + 1]).value);
    } else {
      PutElsewhere(root, f, x, b);
    }
  }

  lemma KidKeepsType(p: Json, i: nat, y: Json)
    requires i < |Kids(p)| && !Kids(p)[i].Str? && !y.Str?
    ensures TypeOf(WithKid(p, i, y)) == TypeOf(p)
  {
  }

  /** Filling a slot with a time series takes that slot, and only that one, off the list of what is visible. */
  lemma FilledIsHidden(root: Json, base: Address, f: Address, x: Json, a: Address)
    requires Visible(root, base, f) && x.Obj? && IsSeries(x)
    ensures Visible(Put(root, f, x), base, a) <==> Visible(root, base, a) && a != f
  {
    var root' := Put(root, f, x);
    assert Get(root, f).value.Obj?;
    PutThere(root, f, x);
    if Prefix(f, a) {
      SeriesIsNoResolvent(x);
      assert |base| < |f| by { assert f[..|f|] == f && f[..|base|] == base; }
      assert a[..|f|] == f;
      OpenBelow(root, base, a, |f|);
      OpenBelow(root', base, a, |f|);
      assert |a| == |f| ==> a == f;
    } else {
      OutsideIsSame(root, base, f, x, a);
    }
  }

  lemma OpenBelow(root: Json, base: Address, a: Address, n: nat)
    ensures Visible(root, base, a) && |base| < n < |a| ==> Open(root, a[..n], false)
  {
  }

  lemma OutsideTypes(root: Json, f: Address, x: Json, a: Address, n: nat)
    requires Inner(root, f) && x.Obj? && !Prefix(f, a) && n <= |a|
    ensures Get(Put(root, f, x), a[..n]).Some? == Get(root, a[..n]).Some?
    ensures Get(root, a[..n]).Some? ==> TypeOf(Get(Put(root, f, x), a[..n]).value) == TypeOf(Get(root, a[..n]).value)
  {
    assert Prefix(a[..n], a);
    PrefixTransitive(f, a[..n], a);
    TypesStay(root, f, x, a[..n]);
  }

  lemma OutsideIsSame(root: Json, base: Address, f: Address, x: Json, a: Address)
    requires Inner(root, f) && x.Obj? && !Prefix(f, a)
    ensures Visible(root, base, a) <==> Visible(Put(root, f, x), base, a)
  {
    OutsideTypes(root, f, x, a, |a|);
    assert a[..|a|] == a;
    forall n | |base| <= n < |a|
      ensures Open(root, a[..n], n == |base|) <==> Open(Put(root, f, x), a[..n], n == |base|)
    {
      OutsideTypes(root, f, x, a, n);
    }
  }

  // ----- Many substitutions --------------------------------------------------------------------------

  /** A slot and what is written into it. */
  datatype Edit = Edit(at: Address, value: Json)

  function Write(root: Json, e: Edit): Json {
    if Get(root, e.at).Some? then Put(root, e.at, e.value) else root
  }

  /** The document after the edits, one after the other. */
  function WriteAll(root: Json, edits: seq<Edit>): Json {
    if edits == [] then root else Write(WriteAll(root, edits[..|edits| - 1]), edits[|edits| - 1])
  }

  /** The edits go to existing slots, none inside another. */
  predicate Disjoint(root: Json, edits: seq<Edit>) {
    && (forall i | 0 <= i < |edits| :: Get(root, edits[i].at).Some?)
    && forall i, k | 0 <= i < |edits| && 0 <= k < |edits| && i != k :: Apart(edits[i].at, edits[k].at)
  }

  /** Edits change nothing outside their slots. */
  lemma {:induction false} NothingElseChanges(root: Json, edits: seq<Edit>, b: Address)
    requires forall i | 0 <= i < |edits| :: Apart(edits[i].at, b)
    ensures Get(WriteAll(root, edits), b) == Get(root, b)
  {
    if edits != [] {
      var n := |edits| - 1;
      NothingElseChanges(root, edits[..n], b);
      var r := WriteAll(root, edits[..n]);
      if Get(r, edits[n].at).Some? { PutElsewhere(r, edits[n].at, edits[n].value, b); }
    }
  }

  function Without(edits: seq<Edit>, i: nat): (rest: seq<Edit>)
    requires i < |edits|
    ensures |rest| == |edits| - 1
    decreases |edits|
  {
    var n := |edits| - 1;
    if i == n then edits[..n] else Without(edits[..n], i) + [edits[n]]
  }

  lemma {:induction false} WithoutAt(edits: seq<Edit>, i: nat, k: nat)
    requires i < |edits| && k < |edits| - 1
    ensures Without(edits, i)[k] == edits[if k < i then k else k + 1]
    decreases |edits|
  {
    var n := |edits| - 1;
    if i < n && k < n - 1 { WithoutAt(edits[..n], i, k); }
  }

  lemma WithoutDisjoint(root: Json, edits: seq<Edit>, i: nat)
    requires Disjoint(root, edits) && i < |edits|
    ensures Disjoint(root, Without(edits, i))
    ensures forall k | 0 <= k < |edits| - 1 :: Apart(Without(edits, i)[k].at, edits[i].at)
    ensures Get(WriteAll(root, Without(edits, i)), edits[i].at) == Get(root, edits[i].at)
  {
    forall k: nat | k < |edits| - 1
      ensures Without(edits, i)[k] == edits[if k < i then k else k + 1]
    {
      WithoutAt(edits, i, k);
    }
    NothingElseChanges(root, Without(edits, i), edits[i].at);
  }

  /** Any edit may come last. */
  lemma {:induction false} MoveLast(root: Json, edits: seq<Edit>, i: nat)
    requires Disjoint(root, edits) && i < |edits|
    ensures WriteAll(root, edits) == Write(WriteAll(root, Without(edits, i)), edits[i])
    decreases |edits|
  {
    var n := |edits| - 1;
    if i < n {
      assert Disjoint(root, edits[..n]);
      MoveLast(root, edits[..n], i);
      WithoutDisjoint(root, edits[..n], i);
      WithoutStays(root, edits, i);
      var r := WriteAll(root, Without(edits[..n], i));
      WritesCommute(r, edits[i], edits[n]);
      WriteWithout(root, edits, i);
    }
  }

  lemma WriteWithout(root: Json, edits: seq<Edit>, i: nat)
    requires i < |edits| - 1
    ensures var n := |edits| - 1;
            WriteAll(root, Without(edits, i)) == Write(WriteAll(root, Without(edits[..n], i)), edits[n])
  {
    var n := |edits| - 1;
    assert Without(edits, i)[..n - 1] == Without(edits[..n], i);
  }

  lemma WritesCommute(root: Json, d: Edit, e: Edit)
    requires Get(root, d.at).Some? && Get(root, e.at).Some? && Apart(d.at, e.at)
    ensures Write(Write(root, d), e) == Write(Write(root, e), d)
  {
    PutsCommute(root, d.at, d.value, e.at, e.value);
  }

  lemma WithoutStays(root: Json, edits: seq<Edit>, i: nat)
    requires Disjoint(root, edits) && i < |edits| - 1
    ensures var n := |edits| - 1; Get(WriteAll(root, Without(edits[..n], i)), edits[n].at) == Get(root, edits[n].at)
  {
    var n := |edits| - 1;
    forall k: nat | k < n - 1 ensures Apart(Without(edits[..n], i)[k].at, edits[n].at) { WithoutAt(edits[..n], i, k); }
    NothingElseChanges(root, Without(edits[..n], i), edits[n].at);
  }

  /** The order of substitutions does not matter. */
  lemma {:induction false} AnyOrder(root: Json, s: seq<Edit>, t: seq<Edit>)
    requires Disjoint(root, s) && Disjoint(root, t) && forall e :: e in s <==> e in t
    ensures WriteAll(root, s) == WriteAll(root, t)
    decreases |t|
  {
    if t == [] {
      HasFirst(s);
    } else {
      var n := |t| - 1;
      assert t[n] in s;
      var i: nat :| i < |s| && s[i] == t[n];
      MoveLast(root, s, i);
      WithoutDisjoint(root, s, i);
      assert Disjoint(root, t[..n]);
      SameRest(root, s, i, t);
      AnyOrder(root, Without(s, i), t[..n]);
    }
  }

  lemma HasFirst(s: seq<Edit>)
    ensures s == [] || s[0] in s
  {
  }

  lemma SameRest(root: Json, s: seq<Edit>, i: nat, t: seq<Edit>)
    requires Disjoint(root, s) && Disjoint(root, t) && i < |s| && t != [] && s[i] == t[|t| - 1]
    requires forall e :: e in s <==> e in t
    ensures forall e :: e in Without(s, i) <==> e in t[..|t| - 1]
  {
    forall e ensures e in Without(s, i) <==> e in t[..|t| - 1] {
      WithoutMember(root, s, i, e);
      WithoutMember(root, t, |t| - 1, e);
    }
  }

  lemma WithoutMember(root: Json, s: seq<Edit>, i: nat, e: Edit)
    requires Disjoint(root, s) && i < |s|
    ensures e in Without(s, i) <==> e in s && e != s[i]
  {
    if e in s && e != s[i] {
      var k: nat :| k < |s| && s[k] == e;
      WithoutAt(s, i, if k < i then k else k - 1);
    }
    if e in Without(s, i) {
      var k: nat :| k < |s| - 1 && Without(s, i)[k] == e;
      WithoutAt(s, i, k);
      assert Prefix(s[i].at, s[i].at);
    }
  }

  /** Every slot ends up with what was written into it. */
  lemma EverySlotFilled(root: Json, edits: seq<Edit>, i: nat)
    requires Disjoint(root, edits) && i < |edits|
    ensures Get(WriteAll(root, edits), edits[i].at) == Some(edits[i].value)
  {
    MoveLast(root, edits, i);
    WithoutDisjoint(root, edits, i);
    PutThere(WriteAll(root, Without(edits, i)), edits[i].at, edits[i].value);
  }

  // ----- Substituting what Find found ------------------------------------------------------------------

  /** One series for every resolvent found. */
  function EditsFor(found: seq<Found>, series: seq<Json>, attach: bool): (edits: seq<Edit>)
    requires |series| == |found| && forall i | 0 <= i < |series| :: series[i].Obj? && WellFormed(series[i])
    ensures |edits| == |found|
    ensures forall i | 0 <= i < |edits| :: edits[i] == Edit(found[i].at, Spliced(series[i], found[i].obj, attach))
  {
    seq(|found|, i requires 0 <= i < |found| => Edit(found[i].at, Spliced(series[i], found[i].obj, attach)))
  }

  lemma FoundIsDisjoint(root: Json, path: string, edits: seq<Edit>)
    requires var found := FindAll(root, path);
             |edits| == |found| && forall i | 0 <= i < |edits| :: edits[i].at == found[i].at
    ensures Disjoint(root, edits)
  {
    FindIsExact(root, path);
    var found := FindAll(root, path);
    forall i | 0 <= i < |edits| ensures Get(root, edits[i].at).Some? { assert Truthful(root, found[i]); }
    forall i, k | 0 <= i < |edits| && 0 <= k < |edits| && i != k ensures Apart(edits[i].at, edits[k].at) {
      if i < k { SoonerIsApart(found[i].at, found[k].at); } else { SoonerIsApart(found[k].at, found[i].at); }
    }
  }

  /** The node carries the series' fields and, where the target wants it, the original resolvent. */
  ghost predicate Carries(node: Json, series: Json, obj: Json, attach: bool) {
    && node.Obj? && (if attach then Field(node, RESOLVENT_KEY) == Some(obj) else node == series)
    && forall key | key != RESOLVENT_KEY :: Field(node, key) == Field(series, key)
  }

  predicate ApartFromAll(found: seq<Found>, a: Address) {
    forall i | 0 <= i < |found| :: Apart(found[i].at, a)
  }

  /** Address by address: each series in its resolvent's slot, and everything apart from the slots as it was. */
  ghost predicate Replaces(root: Json, found: seq<Found>, series: seq<Json>, attach: bool, out: Json)
    requires |series| == |found|
  {
    && (forall i | 0 <= i < |found| ::
          Get(out, found[i].at).Some? && Carries(Get(out, found[i].at).value, series[i], found[i].obj, attach))
    && forall a | ApartFromAll(found, a) :: Get(out, a) == Get(root, a)
  }

  lemma WritingReplaces(root: Json, path: string, series: seq<Json>, attach: bool)
    requires WellFormed(root) && |series| == |FindAll(root, path)|
    requires forall i | 0 <= i < |series| :: series[i].Obj? && WellFormed(series[i])
    ensures var found := FindAll(root, path);
            Replaces(root, found, series, attach, WriteAll(root, EditsFor(found, series, attach)))
  {
    var found := FindAll(root, path);
    var edits := EditsFor(found, series, attach);
    FindIsExact(root, path);
    FoundIsDisjoint(root, path, edits);
    forall i | 0 <= i < |found|
      ensures Get(WriteAll(root, edits), found[i].at) == Some(Spliced(series[i], found[i].obj, attach))
      ensures Carries(Spliced(series[i], found[i].obj, attach), series[i], found[i].obj, attach)
    {
      EverySlotFilled(root, edits, i);
      assert Truthful(root, found[i]);
      NodesAreWellFormed(root, found[i].at);
      SplicedSeries(series[i], found[i].obj, attach);
    }
    forall a | ApartFromAll(found, a) ensures Get(WriteAll(root, edits), a) == Get(root, a) {
      NothingElseChanges(root, edits, a);
    }
  }

  /** The container path still leads to the same place. */
  lemma {:induction false} ContainerStays(root: Json, segments: seq<string>, n: nat, f: Address, x: Json)
    requires n <= |segments| && Locate(root, segments, n).Some? && Prefix(Locate(root, segments, n).value, f)
    requires Get(root, f).Some?
    ensures Locate(Put(root, f, x), segments, n) == Locate(root, segments, n)
  {
    if n > 0 {
      var b, c := Locate(root, segments, n - 1).value, Locate(root, segments, n).value;
      assert c[..n - 1] == b;
      assert Prefix(b, c);
      PrefixTransitive(b, c, f);
      ContainerStays(root, segments, n - 1, f, x);
      PutAbove(root, f, x, n - 1);
      assert f[..n - 1] == b;
    }
  }

  /** The state after the first n series are in. */
  ghost predicate Filled(root: Json, at: Address, edits: seq<Edit>, now: Json) {
    && Get(root, at).Some? && Get(now, at).Some? && TypeOf(Get(now, at).value) == TypeOf(Get(root, at).value)
    && forall a :: Visible(now, at, a) <==> Visible(root, at, a) && Untouched(edits, a)
  }

  predicate Untouched(edits: seq<Edit>, a: Address) {
    forall i | 0 <= i < |edits| :: edits[i].at != a
  }

  lemma UntouchedLast(edits: seq<Edit>, a: Address)
    requires edits != []
    ensures Untouched(edits, a) <==> Untouched(edits[..|edits| - 1], a) && edits[|edits| - 1].at != a
  {
  }

  /** Filling visible slots one by one leaves exactly the others visible. */
  lemma {:induction false} FillingHides(root: Json, path: string, at: Address, edits: seq<Edit>)
    requires Get(root, at).Some? && Disjoint(root, edits) && Container(root, path) == Some(at)
    requires forall i | 0 <= i < |edits| ::
               Visible(root, at, edits[i].at) && edits[i].value.Obj? && IsSeries(edits[i].value)
    ensures Filled(root, at, edits, WriteAll(root, edits)) && Container(WriteAll(root, edits), path) == Some(at)
  {
    if edits != [] {
      var n := |edits| - 1;
      var e, r := edits[n], WriteAll(root, edits[..n]);
      FillingHides(root, path, at, edits[..n]);
      NothingElseChanges(root, edits[..n], e.at);
      NoTwin(root, edits);
      assert Visible(r, at, e.at);
      ContainerStays(r, Segments(path), |Segments(path)|, e.at, e.value);
      OneMoreFilled(root, at, edits, r);
    }
  }

  lemma NoTwin(root: Json, edits: seq<Edit>)
    requires Disjoint(root, edits) && edits != []
    ensures Untouched(edits[..|edits| - 1], edits[|edits| - 1].at)
  {
    var n := |edits| - 1;
    assert !Apart(edits[n].at, edits[n].at) by { assert Prefix(edits[n].at, edits[n].at); }
  }

  lemma OneMoreFilled(root: Json, at: Address, edits: seq<Edit>, r: Json)
    requires edits != [] && Get(root, at).Some? && Filled(root, at, edits[..|edits| - 1], r)
    requires var e := edits[|edits| - 1]; Visible(r, at, e.at) && e.value.Obj? && IsSeries(e.value)
    ensures Filled(root, at, edits, Write(r, edits[|edits| - 1]))
  {
    var n := |edits| - 1;
    var e := edits[n];
    assert !Prefix(e.at, at) by { assert at[..|at|] == at; }
    TypesStay(r, e.at, e.value, at);
    forall a ensures Visible(Write(r, e), at, a) <==> Visible(root, at, a) && Untouched(edits, a) {
      FilledIsHidden(r, at, e.at, e.value, a);
      UntouchedLast(edits, a);
    }
  }

  /** When every series has type time-series, a second Find finds nothing. */
  lemma SecondFindIsEmpty(root: Json, path: string, series: seq<Json>, attach: bool)
    requires WellFormed(root) && |series| == |FindAll(root, path)|
    requires forall i | 0 <= i < |series| :: series[i].Obj? && WellFormed(series[i]) && IsSeries(series[i])
    ensures FindAll(WriteAll(root, EditsFor(FindAll(root, path), series, attach)), path) == []
  {
    var found := FindAll(root, path);
    var edits := EditsFor(found, series, attach);
    var now := WriteAll(root, edits);
    FindIsExact(root, path);
    FoundIsDisjoint(root, path, edits);
    forall i | 0 <= i < |edits| ensures edits[i].value.Obj? && IsSeries(edits[i].value) && Lists(found, edits[i].at) {
      assert Truthful(root, found[i]);
      NodesAreWellFormed(root, found[i].at);
      SplicedSeries(series[i], found[i].obj, attach);
      assert found[i].at == edits[i].at;
    }
    if Container(root, path).Some? {
      var at := Container(root, path).value;
      if SelfResolvent(root, at) {
        SelfFilled(root, path, at, edits);
      } else {
        FillingHides(root, path, at, edits);
        NothingVisible(root, path, at, found, edits, now);
      }
    }
  }

  lemma SelfFilled(root: Json, path: string, at: Address, edits: seq<Edit>)
    requires Container(root, path) == Some(at) && |edits| == 1 && edits[0].at == at
    requires edits[0].value.Obj? && IsSeries(edits[0].value)
    ensures FindAll(WriteAll(root, edits), path) == []
  {
    assert edits[..0] == [];
    assert WriteAll(root, edits[..0]) == root;
    var x := edits[0].value;
    PutThere(root, at, x);
    assert Prefix(at, at);
    ContainerStays(root, Segments(path), |Segments(path)|, at, x);
    SeriesIsNoResolvent(x);
  }

  lemma NothingVisible(root: Json, path: string, at: Address, found: seq<Found>, edits: seq<Edit>, now: Json)
    requires Container(root, path) == Some(at) && !SelfResolvent(root, at) && found == FindAll(root, path)
    requires |edits| == |found| && forall i | 0 <= i < |edits| :: edits[i].at == found[i].at
    requires Filled(root, at, edits, now) && Container(now, path) == Some(at)
    ensures FindAll(now, path) == []
  {
    FindIsExact(root, path);
    FindIsExact(now, path);
    assert !SelfResolvent(now, at);
    forall a ensures !Lists(FindAll(now, path), a) {
      if Visible(root, at, a) {
        assert Lists(found, a);
        var i :| 0 <= i < |found| && found[i].at == a;
        assert edits[i].at == a;
      }
    }
    var again := FindAll(now, path);
    assert !Lists(again, if again == [] then [] else again[0].at);
  }

  // ----- The document -------------------------------------------------------------------------------------

  datatype Warning = WrongType | Overwritten

  /** The decoded payload, whose slots the found resolvents write. */
  class Document {
    var root: Json

    constructor (root: Json)
      ensures this.root == root
    {
      this.root := root;
    }

    /** Found.Substitute: the response must be an object, else nothing is written. */
    method Substitute(f: Found, response: Json, attach: bool) returns (r: Result<seq<Warning>, string>)
      requires Get(root, f.at).Some? && WellFormed(response)
      modifies this
      ensures r.Ok? <==> response.Obj?
      ensures r.Err? ==> root == old(root)
      ensures r.Ok? ==> root == Put(old(root), f.at, Spliced(response, f.obj, attach))
      ensures r.Ok? ==> (WrongType in r.value <==> !IsSeries(response))
      ensures r.Ok? ==> (Overwritten in r.value <==> attach && Field(response, RESOLVENT_KEY).Some?)
    {
      if !response.Obj? { return Err("not a JSON object"); }
      var warnings := [];
      if !IsSeries(response) { warnings := warnings + [WrongType]; }
      var series := response;
      if attach {
        if Field(series, RESOLVENT_KEY).Some? { warnings := warnings + [Overwritten]; }
        series := SetField(series, RESOLVENT_KEY, f.obj);
      }
      root := Put(root, f.at, series);
      return Ok(warnings);
    }

    /** The worker's loop over everything Find reported. */
    method SubstituteAll(path: string, found: seq<Found>, responses: seq<Json>, attach: bool) returns (ok: bool)
      requires WellFormed(root) && found == FindAll(root, path) && |responses| == |found|
      requires forall i | 0 <= i < |responses| :: WellFormed(responses[i])
      modifies this
      ensures ok <==> forall i | 0 <= i < |responses| :: responses[i].Obj?
      ensures ok ==> root == WriteAll(old(root), EditsFor(found, responses, attach))
      ensures ok && (forall i | 0 <= i < |responses| :: IsSeries(responses[i])) ==> FindAll(root, path) == []
    {
      ghost var edits: seq<Edit> := [];
      for i := 0 to |found|
        invariant |edits| == i && forall k | 0 <= k < i ::
            responses[k].Obj? && edits[k] == Edit(found[k].at, Spliced(responses[k], found[k].obj, attach))
        invariant root == WriteAll(old(root), edits)
      {
        SlotStays(old(root), path, found, edits, i);
        var r := Substitute(found[i], responses[i], attach);
        if r.Err? { return false; }
        ghost var e := Edit(found[i].at, Spliced(responses[i], found[i].obj, attach));
        assert (edits + [e])[..i] == edits;
        edits := edits + [e];
      }
      assert edits == EditsFor(found, responses, attach);
      if forall i | 0 <= i < |responses| :: IsSeries(responses[i]) {
        SecondFindIsEmpty(old(root), path, responses, attach);
      }
      return true;
    }
  }

  /** A slot not yet written is still there. */
  lemma SlotStays(root: Json, path: string, found: seq<Found>, edits: seq<Edit>, i: nat)
    requires found == FindAll(root, path) && |edits| == i < |found|
    requires forall k | 0 <= k < i :: edits[k].at == found[k].at
    ensures Get(WriteAll(root, edits), found[i].at).Some?
  {
    FindIsExact(root, path);
    assert Truthful(root, found[i]);
    forall k | 0 <= k < i ensures Apart(edits[k].at, found[i].at) { SoonerIsApart(found[k].at, found[i].at); }
    NothingElseChanges(root, edits, found[i].at);
  }
}
