/** References between resolvents: finding and reading them. */
module References {
  import opened Wrappers
  import opened Json
  import opened Paths
  import opened Resolver

  const REF_KEY := "$from"
  const PATH_KEY := "path"

  // ----- Reference objects ---------------------------------------------------------------------

  datatype Ref = Ref(from: string, path: seq<Segment>)

  predicate IsRef(j: Json) {
    Field(j, REF_KEY).Some?
  }

  function Undotted(s: string): string {
    if s != "" && s[0] == '.' then s[1..] else s
  }

  /** The path text a reference carries, without its optional leading dot; absent means the whole series. */
  function RefPath(j: Json): Option<string> {
    match Field(j, PATH_KEY)
    case None => Some("")
    case Some(Str(s)) => Some(Undotted(s))
    case _ => None
  }

  predicate OnlyRefKeys(j: Json) {
    j.Obj? && forall i | 0 <= i < |j.keys| :: j.keys[i] == REF_KEY || j.keys[i] == PATH_KEY
  }

  /** parseRef. */
  function ParseRef(j: Json): Option<Ref> {
    match Field(j, REF_KEY)
    case Some(Str(from)) =>
      if from == "" || RefPath(j).None? || !OnlyRefKeys(j) then None
      else
        var path := ParsePath(RefPath(j).value);
        if path.None? then None else Some(Ref(from, path.value))
    case _ => None
  }

  /** The reference objects below j in document order; a reference is not searched. */
  function RefsIn(j: Json): seq<Json>
    decreases j, |Kids(j)| + 1
  {
    RefsInKids(j, |Kids(j)|)
  }

  function RefsInKids(j: Json, n: nat): seq<Json>
    requires n <= |Kids(j)|
    decreases j, n
  {
    if n == 0 then []
    else
      var kid := Kids(j)[n - 1];
      RefsInKids(j, n - 1) + if IsRef(kid) then [kid] else RefsIn(kid)
  }

  /** The texts of a path: the leading dot is optional. */
  ghost predicate TextOf(text: string, path: seq<Segment>) {
    Proper(path) && (text == PathText(path) || text == ['.'] + PathText(path))
  }

  /** The object refers to a path in the series of this resolvent; without a path, to the whole series. */
  ghost predicate Refers(j: Json, from: string, path: seq<Segment>) {
    from != "" &&
    ((j == Obj([REF_KEY], [Str(from)]) && path == [])
     || exists text :: TextOf(text, path) && j == Obj([REF_KEY, PATH_KEY], [Str(from), Str(text)]))
  }

  /** Well-formed references are the objects of these two forms. */
  lemma ParseRefMeans(j: Json, from: string, path: seq<Segment>)
    requires WellFormed(j)
    ensures ParseRef(j) == Some(Ref(from, path)) <==> Refers(j, from, path)
  {
    if ParseRef(j) == Some(Ref(from, path)) { RefForms(j, from); }
    if j == Obj([REF_KEY], [Str(from)]) {
      ShortRef(from);
      ParsePathMeans("", path);
    }
    if j.Obj? && |j.items| == 2 && j == Obj([REF_KEY, PATH_KEY], [Str(from), j.items[1]]) {
      LongRef(from, j.items[1]);
      if j.items[1].Str? { PathOfText(j.items[1].text, path); }
    }
  }

  lemma PathOfText(text: string, path: seq<Segment>)
    ensures ParsePath(Undotted(text)) == Some(path) <==> TextOf(text, path)
  {
    ParsePathMeans(Undotted(text), path);
    if Proper(path) {
      assert (['.'] + PathText(path))[1..] == PathText(path);
      StartsWithoutDot(path);
      assert text == Undotted(text) || text == ['.'] + Undotted(text);
    }
  }

  lemma ShortRef(from: string)
    ensures var j := Obj([REF_KEY], [Str(from)]);
            Field(j, REF_KEY) == Some(Str(from)) && Field(j, PATH_KEY) == None && OnlyRefKeys(j)
  {
    assert Position([REF_KEY], REF_KEY, 0) == 0 && REF_KEY[0] != PATH_KEY[0];
  }

  lemma LongRef(from: string, v: Json)
    ensures var j := Obj([REF_KEY, PATH_KEY], [Str(from), v]);
            Field(j, REF_KEY) == Some(Str(from)) && Field(j, PATH_KEY) == Some(v) && OnlyRefKeys(j)
  {
    assert Position([REF_KEY, PATH_KEY], REF_KEY, 0) == 0 && REF_KEY[0] != PATH_KEY[0];
    assert Position([REF_KEY, PATH_KEY], PATH_KEY, 0) == 1;
  }

  /** An object with no other keys has one of the two forms. */
  lemma RefForms(j: Json, from: string)
    requires WellFormed(j) && Field(j, REF_KEY) == Some(Str(from)) && OnlyRefKeys(j)
    ensures j == Obj([REF_KEY], [Str(from)])
            || (|j.items| == 2 && j == Obj([REF_KEY, PATH_KEY], [Str(from), j.items[1]]))
  {
    var keys := j.keys;
    KeysInOrder();
    assert forall i, k | 0 <= i < k < |keys| :: Before(keys[i], keys[k]);
    TwoKeys(keys, Position(keys, REF_KEY, 0));
    FieldAt(j, 0);
  }

  lemma TwoKeys(keys: seq<string>, p: nat)
    requires Ascending(keys) && p < |keys| && keys[p] == REF_KEY
    requires forall i | 0 <= i < |keys| :: keys[i] == REF_KEY || keys[i] == PATH_KEY
    ensures keys == [REF_KEY] || keys == [REF_KEY, PATH_KEY]
  {
    KeyPair(keys, 0, 1);
    KeyPair(keys, 1, 2);
    assert REF_KEY[0] != PATH_KEY[0];
  }

  lemma KeyPair(keys: seq<string>, i: nat, k: nat)
    requires Ascending(keys) && forall n | 0 <= n < |keys| :: keys[n] == REF_KEY || keys[n] == PATH_KEY
    ensures i < k < |keys| ==> keys[i] == REF_KEY && keys[k] == PATH_KEY
  {
    KeysInOrder();
    if i < k < |keys| { assert Before(keys[i], keys[k]); }
  }

  lemma KeysInOrder()
    ensures !Before(PATH_KEY, REF_KEY) && !Before(REF_KEY, REF_KEY) && !Before(PATH_KEY, PATH_KEY)
  {
    NotBeforeItself(REF_KEY, 0);
    NotBeforeItself(PATH_KEY, 0);
    assert REF_KEY[0] < PATH_KEY[0];
  }

  // ----- Where references stand ------------------------------------------------------------------

  ghost predicate RefAt(j: Json, a: Address) {
    Get(j, a).Some? && IsRef(Get(j, a).value)
  }

  /** There is no reference at a or on the way to it. The object at the top is never taken for one. */
  ghost predicate Outside(j: Json, a: Address) {
    forall n | 0 < n <= |a| :: !RefAt(j, a[..n])
  }

  /** A reference within no other. */
  ghost predicate Outermost(j: Json, a: Address) {
    a != [] && RefAt(j, a) && Outside(j, a[..|a| - 1])
  }

  lemma {:induction false} GetBelow(j: Json, i: nat, b: Address)
    ensures Get(j, [i] + b) == if i < |Kids(j)| then Get(Kids(j)[i], b) else None
  {
    var a := [i] + b;
    if b == [] {
      assert a[..0] == [] && a == [i];
    } else {
      var n := |b| - 1;
      GetBelow(j, i, b[..n]);
      assert a[..|a| - 1] == [i] + b[..n] && a[|a| - 1] == b[n];
    }
  }

  lemma OutsideBelow(j: Json, i: nat, b: Address)
    requires i < |Kids(j)|
    ensures Outside(j, [i] + b) <==> !IsRef(Kids(j)[i]) && Outside(Kids(j)[i], b)
  {
    var a := [i] + b;
    GetBelow(j, i, []);
    assert a[..1] == [i] + [];
    forall n: nat | n <= |b| ensures RefAt(j, a[..n + 1]) <==> RefAt(Kids(j)[i], b[..n]) {
      GetBelow(j, i, b[..n]);
      assert a[..n + 1] == [i] + b[..n];
    }
    if Outside(j, a) {
      forall n | 0 < n <= |b| ensures !RefAt(Kids(j)[i], b[..n]) { assert !RefAt(j, a[..n + 1]); }
    }
    if !IsRef(Kids(j)[i]) && Outside(Kids(j)[i], b) {
      forall n | 0 < n <= |a| ensures !RefAt(j, a[..n]) {
        if n > 1 { assert a[..n] == a[..(n - 1) + 1] && !RefAt(Kids(j)[i], b[..n - 1]); }
      }
    }
  }

  lemma OutermostBelow(j: Json, i: nat, b: Address)
    requires i < |Kids(j)|
    ensures Outermost(j, [i] + b) <==> if IsRef(Kids(j)[i]) then b == [] else Outermost(Kids(j)[i], b)
  {
    var a := [i] + b;
    GetBelow(j, i, b);
    if b == [] {
      assert a[..|a| - 1] == [];
    } else {
      OutsideBelow(j, i, b[..|b| - 1]);
      assert a[..|a| - 1] == [i] + b[..|b| - 1];
    }
  }

  lemma OutermostIsBelow(j: Json, a: Address)
    requires Outermost(j, a)
    ensures a == [a[0]] + a[1..] && a[0] < |Kids(j)|
  {
    assert a == [a[0]] + a[1..];
    GetBelow(j, a[0], a[1..]);
  }

  /** The references of j are the outermost ones. */
  lemma {:induction false} RefsInMeans(j: Json, r: Json)
    ensures r in RefsIn(j) <==> exists a :: Outermost(j, a) && Get(j, a) == Some(r)
    decreases j
  {
    forall i | 0 <= i < |Kids(j)| { RefsInMeans(Kids(j)[i], r); }
    KidsRefs(j, |Kids(j)|, r);
    if exists a :: Outermost(j, a) && Get(j, a) == Some(r) {
      var a :| Outermost(j, a) && Get(j, a) == Some(r);
      OutermostIsBelow(j, a);
      RefOfKid(j, a[0], a[1..], r);
    }
    if exists i | 0 <= i < |Kids(j)| :: HasRef(Kids(j)[i], r) {
      var i: nat :| i < |Kids(j)| && HasRef(Kids(j)[i], r);
      KidOfRef(j, i, r);
    }
  }

  /** The reference is this node or, unless this is one, below it. */
  predicate HasRef(kid: Json, r: Json) {
    if IsRef(kid) then r == kid else r in RefsIn(kid)
  }

  lemma {:induction false} KidsRefs(j: Json, n: nat, r: Json)
    requires n <= |Kids(j)|
    ensures r in RefsInKids(j, n) <==> exists i | 0 <= i < n :: HasRef(Kids(j)[i], r)
  {
    if n > 0 {
      KidsRefs(j, n - 1, r);
      LastKidRefs(j, n, r);
    }
  }

  lemma LastKidRefs(j: Json, n: nat, r: Json)
    requires 0 < n <= |Kids(j)|
    ensures r in RefsInKids(j, n) <==> r in RefsInKids(j, n - 1) || HasRef(Kids(j)[n - 1], r)
  {
    InEither(RefsInKids(j, n - 1), if IsRef(Kids(j)[n - 1]) then [Kids(j)[n - 1]] else RefsIn(Kids(j)[n - 1]), r);
  }

  lemma InEither(s: seq<Json>, t: seq<Json>, r: Json)
    ensures r in s + t <==> r in s || r in t
  {
  }

  lemma RefOfKid(j: Json, i: nat, b: Address, r: Json)
    requires i < |Kids(j)| && Outermost(j, [i] + b) && Get(j, [i] + b) == Some(r)
    requires r in RefsIn(Kids(j)[i]) <==> exists a :: Outermost(Kids(j)[i], a) && Get(Kids(j)[i], a) == Some(r)
    ensures HasRef(Kids(j)[i], r)
  {
    GetBelow(j, i, b);
    OutermostBelow(j, i, b);
  }

  lemma KidOfRef(j: Json, i: nat, r: Json)
    requires i < |Kids(j)| && HasRef(Kids(j)[i], r)
    requires r in RefsIn(Kids(j)[i]) <==> exists a :: Outermost(Kids(j)[i], a) && Get(Kids(j)[i], a) == Some(r)
    ensures exists a :: Outermost(j, a) && Get(j, a) == Some(r)
  {
    var b: Address := [];
    if !IsRef(Kids(j)[i]) { b :| Outermost(Kids(j)[i], b) && Get(Kids(j)[i], b) == Some(r); }
    GetBelow(j, i, b);
    OutermostBelow(j, i, b);
  }
}
