/**
 Decoded JSON as a tree, addresses of its nodes, and replacing one node.

 An object is its keys in ascending order with the values beside them, which is the order
 every walk of the resolver visits a Go map in. A node's address is the list of child
 positions that leads to it.
 */
module Json {
  import opened Wrappers

  datatype Json =
    | Null
    | Bool(value: bool)
    | Num(text: string)
    | Str(text: string)
    | Arr(items: seq<Json>)
    | Obj(keys: seq<string>, items: seq<Json>)

  type Address = seq<nat>

  function Kids(j: Json): seq<Json> {
    if j.Arr? || j.Obj? then j.items else []
  }

  /** Keys are distinct and in order, in every object of the tree. */
  predicate WellFormed(j: Json) {
    && (j.Obj? ==> |j.keys| == |j.items| && Ascending(j.keys))
    && ((j.Arr? || j.Obj?) ==> forall i | 0 <= i < |j.items| :: WellFormed(j.items[i]))
  }

  predicate Ascending(keys: seq<string>) {
    forall i, k | 0 <= i < k < |keys| :: Before(keys[i], keys[k])
  }

  predicate Before(a: string, b: string) {
    BeforeFrom(a, b, 0)
  }

  /** String order, for texts that agree up to position n. */
  predicate BeforeFrom(a: string, b: string, n: nat)
    decreases |a| - n
  {
    n < |b| && (n >= |a| || a[n] < b[n] || (a[n] == b[n] && BeforeFrom(a, b, n + 1)))
  }

  lemma {:induction false} NotBeforeItself(a: string, n: nat)
    ensures !BeforeFrom(a, a, n)
    decreases |a| - n
  {
    if n < |a| { NotBeforeItself(a, n + 1); }
  }

  lemma {:induction false} BeforeTransitive(a: string, b: string, c: string, n: nat)
    requires BeforeFrom(a, b, n) && BeforeFrom(b, c, n)
    ensures BeforeFrom(a, c, n)
    decreases |a| - n
  {
    if n < |a| && a[n] == b[n] == c[n] { BeforeTransitive(a, b, c, n + 1); }
  }

  lemma {:induction false} BeforeTotal(a: string, b: string, n: nat)
    requires a != b && n <= |a| && n <= |b| && a[..n] == b[..n]
    ensures BeforeFrom(a, b, n) || BeforeFrom(b, a, n)
    decreases |a| - n
  {
    if n < |a| && n < |b| {
      if a[n] == b[n] {
        assert a[..n + 1] == a[..n] + [a[n]] && b[..n + 1] == b[..n] + [b[n]];
        BeforeTotal(a, b, n + 1);
      }
    } else {
      assert a[..|a|] == a && b[..|b|] == b;
    }
  }

  /** The first position from i on where the key stands, or the number of keys. */
  function Position(keys: seq<string>, key: string, i: nat): (p: nat)
    requires i <= |keys|
    ensures i <= p <= |keys| && (p < |keys| ==> keys[p] == key)
    decreases |keys| - i
  {
    if i == |keys| || keys[i] == key then i else Position(keys, key, i + 1)
  }

  lemma PositionOf(keys: seq<string>, i: nat)
    requires Ascending(keys) && i < |keys|
    ensures Position(keys, keys[i], 0) == i
  {
    PositionFrom(keys, i, 0);
  }

  lemma {:induction false} PositionFrom(keys: seq<string>, i: nat, from: nat)
    requires Ascending(keys) && from <= i < |keys|
    ensures Position(keys, keys[i], from) == i
    decreases i - from
  {
    NotBeforeItself(keys[i], 0);
    if from < i { PositionFrom(keys, i, from + 1); }
  }

  /** The value under a key, as Go's map index gives it. */
  function Field(j: Json, key: string): Option<Json> {
    if j.Obj? && |j.keys| == |j.items| && Position(j.keys, key, 0) < |j.keys|
    then Some(j.items[Position(j.keys, key, 0)])
    else None
  }

  lemma FieldAt(j: Json, i: nat)
    requires j.Obj? && |j.keys| == |j.items| && Ascending(j.keys) && i < |j.keys|
    ensures Field(j, j.keys[i]) == Some(j.items[i])
  {
    PositionOf(j.keys, i);
  }

  lemma FieldMissing(j: Json, key: string)
    requires j.Obj? && |j.keys| == |j.items| && key !in j.keys
    ensures Field(j, key) == None
  {
  }

  /** An object in order: as many values as keys, keys ascending. */
  predicate Ordered(j: Json) {
    j.Obj? && |j.keys| == |j.items| && Ascending(j.keys)
  }

  /** An object is what its fields are. */
  lemma SameFields(x: Json, y: Json)
    requires Ordered(x) && Ordered(y) && forall key :: Field(x, key) == Field(y, key)
    ensures x == y
  {
    forall key ensures key in x.keys <==> key in y.keys {
      assert Field(x, key) == Field(y, key);
      KeyIsField(x, key);
      KeyIsField(y, key);
    }
    SameKeys(x.keys, y.keys);
    forall i | 0 <= i < |x.items| ensures x.items[i] == y.items[i] {
      FieldAt(x, i);
      FieldAt(y, i);
    }
  }

  lemma KeyIsField(j: Json, key: string)
    requires Ordered(j)
    ensures key in j.keys <==> Field(j, key).Some?
  {
    if key in j.keys {
      var i :| 0 <= i < |j.keys| && j.keys[i] == key;
      FieldAt(j, i);
    }
  }

  lemma {:induction false} SameKeys(a: seq<string>, b: seq<string>)
    requires Ascending(a) && Ascending(b) && forall key :: key in a <==> key in b
    ensures a == b
  {
    if a == [] {
      SomeKey(b);
    } else {
      assert a[0] in b;
      SameLast(a, b);
      var n, m := |a| - 1, |b| - 1;
      forall key ensures key in a[..n] <==> key in b[..m] {
        LastApart(a, key);
        LastApart(b, key);
      }
      SameKeys(a[..n], b[..m]);
      assert a == a[..n] + [a[n]] && b == b[..m] + [b[m]];
    }
  }

  lemma SomeKey(a: seq<string>)
    ensures a != [] ==> exists key :: key in a
  {
    if a != [] { assert a[0] in a; }
  }

  lemma LastApart(a: seq<string>, key: string)
    requires Ascending(a) && a != []
    ensures key in a[..|a| - 1] <==> key in a && key != a[|a| - 1]
  {
    var n := |a| - 1;
    assert a == a[..n] + [a[n]];
    if key in a[..n] {
      var i :| 0 <= i < n && a[i] == key;
      assert Before(a[i], a[n]);
      NotBeforeItself(key, 0);
    }
  }

  lemma SameLast(a: seq<string>, b: seq<string>)
    requires Ascending(a) && Ascending(b) && a != [] && b != [] && forall key :: key in a <==> key in b
    ensures a[|a| - 1] == b[|b| - 1]
  {
    var x, y := a[|a| - 1], b[|b| - 1];
    assert x in a && y in b;
    var i :| 0 <= i < |b| && b[i] == x;
    var k :| 0 <= k < |a| && a[k] == y;
    if i < |b| - 1 && k < |a| - 1 {
      BeforeTransitive(x, y, x, 0);
      NotBeforeItself(x, 0);
    }
  }

  // ----- Addresses ------------------------------------------------------------------------

  predicate Prefix(a: Address, b: Address) {
    |a| <= |b| && b[..|a|] == a
  }

  predicate Apart(a: Address, b: Address) {
    !Prefix(a, b) && !Prefix(b, a)
  }

  function Get(root: Json, a: Address): Option<Json> {
    if a == [] then Some(root)
    else
      var n := |a| - 1;
      match Get(root, a[..n])
      case Some(p) => if a[n] < |Kids(p)| then Some(Kids(p)[a[n]]) else None
      case None => None
  }

  function WithKid(j: Json, i: nat, x: Json): Json
    requires i < |Kids(j)|
  {
    match j
    case Arr(items) => Arr(items[i := x])
    case Obj(keys, items) => Obj(keys, items[i := x])
  }

  /** The document with the node at a replaced. */
  function Put(root: Json, a: Address, x: Json): Json
    requires Get(root, a).Some?
    decreases |a|
  {
    if a == [] then x
    else Put(root, a[..|a| - 1], WithKid(Get(root, a[..|a| - 1]).value, a[|a| - 1], x))
  }

  lemma {:induction false} PrefixReaches(root: Json, a: Address, n: nat)
    requires n <= |a| && Get(root, a).Some?
    ensures Get(root, a[..n]).Some?
    decreases |a|
  {
    if n < |a| {
      PrefixReaches(root, a[..|a| - 1], n);
      assert a[..|a| - 1][..n] == a[..n];
    } else {
      assert a[..n] == a;
    }
  }

  lemma {:induction false} NodesAreWellFormed(root: Json, a: Address)
    requires WellFormed(root) && Get(root, a).Some?
    ensures WellFormed(Get(root, a).value)
  {
    if a != [] { NodesAreWellFormed(root, a[..|a| - 1]); }
  }

  /** The new node stands at its address. */
  lemma {:induction false} PutThere(root: Json, a: Address, x: Json)
    requires Get(root, a).Some?
    ensures Get(Put(root, a, x), a) == Some(x)
  {
    if a != [] {
      var n := |a| - 1;
      var p := WithKid(Get(root, a[..n]).value, a[n], x);
      PutThere(root, a[..n], p);
      assert Kids(p)[a[n]] == x;
    }
  }

  /** A node on the way to the replaced one differs in that one child. */
  lemma {:induction false} PutAbove(root: Json, a: Address, x: Json, n: nat)
    requires Get(root, a).Some? && n < |a|
    ensures Get(root, a[..n]).Some? && Get(Put(root, a, x), a[..n + 1]).Some?
    ensures a[n] < |Kids(Get(root, a[..n]).value)|
    ensures Get(Put(root, a, x), a[..n]) ==
            Some(WithKid(Get(root, a[..n]).value, a[n], Get(Put(root, a, x), a[..n + 1]).value))
    decreases |a|
  {
    var m := |a| - 1;
    var p := WithKid(Get(root, a[..m]).value, a[m], x);
    if n == m {
      PutThere(root, a[..m], p);
      PutThere(root, a, x);
      assert a[..n + 1] == a;
    } else {
      PutAbove(root, a[..m], p, n);
      assert a[..m][..n] == a[..n] && a[..m][..n + 1] == a[..n + 1];
    }
  }

  /** Nothing else changes. */
  lemma {:induction false} PutElsewhere(root: Json, a: Address, x: Json, b: Address)
    requires Get(root, a).Some? && Apart(a, b)
    ensures Get(Put(root, a, x), b) == Get(root, b)
    decreases |b|
  {
    var n := |b| - 1;
    ParentOf(a, b);
    if Prefix(b[..n], a) {
      PutAbove(root, a, x, n);
    } else {
      PutElsewhere(root, a, x, b[..n]);
    }
  }

  lemma PrefixTransitive(a: Address, b: Address, c: Address)
    ensures Prefix(a, b) && Prefix(b, c) ==> Prefix(a, c)
  {
    if Prefix(a, b) && Prefix(b, c) { assert c[..|a|] == b[..|a|]; }
  }

  lemma OneFurther(a: Address, b: Address, n: nat)
    ensures n < |a| && n < |b| && a[..n] == b[..n] && a[n] == b[n] ==> a[..n + 1] == b[..n + 1]
  {
  }

  /** The parent of b lies on the way to a, where the ways part, or is apart from a as well. */
  lemma ParentOf(a: Address, b: Address)
    requires Apart(a, b)
    ensures b != []
    ensures var n := |b| - 1;
            if Prefix(b[..n], a) then n < |a| && a[..n] == b[..n] && a[n] != b[n] else Apart(a, b[..n])
  {
    var n := |b| - 1;
    assert Prefix(b[..n], b);
    PrefixTransitive(a, b[..n], b);
    OneFurther(a, b, n);
    assert b[..n + 1] == b && a[..|a|] == a;
  }

  lemma {:induction false} PutIsWellFormed(root: Json, a: Address, x: Json)
    requires WellFormed(root) && WellFormed(x) && Get(root, a).Some?
    ensures WellFormed(Put(root, a, x))
    decreases |a|
  {
    if a != [] {
      NodesAreWellFormed(root, a[..|a| - 1]);
      PutIsWellFormed(root, a[..|a| - 1], WithKid(Get(root, a[..|a| - 1]).value, a[|a| - 1], x));
    }
  }

  lemma {:induction false} PutTwice(root: Json, a: Address, x: Json, y: Json)
    requires Get(root, a).Some?
    ensures Get(Put(root, a, x), a).Some? && Put(Put(root, a, x), a, y) == Put(root, a, y)
    decreases |a|
  {
    PutThere(root, a, x);
    if a != [] {
      var n := |a| - 1;
      var p := Get(root, a[..n]).value;
      PutThere(root, a[..n], WithKid(p, a[n], x));
      PutTwice(root, a[..n], WithKid(p, a[n], x), WithKid(p, a[n], y));
      KidTwice(p, a[n], x, y);
    }
  }

  lemma KidTwice(p: Json, i: nat, x: Json, y: Json)
    requires i < |Kids(p)|
    ensures WithKid(WithKid(p, i, x), i, y) == WithKid(p, i, y)
  {
  }

  lemma KidsCommute(p: Json, i: nat, x: Json, k: nat, y: Json)
    requires i < |Kids(p)| && k < |Kids(p)| && i != k
    ensures WithKid(WithKid(p, i, x), k, y) == WithKid(WithKid(p, k, y), i, x)
  {
    assert Kids(p)[i := x][k := y] == Kids(p)[k := y][i := x];
  }

  /** Replacements at addresses apart from each other commute. */
  lemma {:induction false} PutsCommute(root: Json, a: Address, x: Json, b: Address, y: Json)
    requires Get(root, a).Some? && Get(root, b).Some? && Apart(a, b)
    ensures Get(Put(root, a, x), b).Some? && Get(Put(root, b, y), a).Some?
    ensures Put(Put(root, a, x), b, y) == Put(Put(root, b, y), a, x)
    decreases |a| + |b|
  {
    PutElsewhere(root, a, x, b);
    PutElsewhere(root, b, y, a);
    var n, m := |a| - 1, |b| - 1;
    if !Prefix(a[..n], b) {
      CommuteUp(root, a, x, b, y);
    } else if !Prefix(b[..m], a) {
      CommuteUp(root, b, y, a, x);
    } else {
      SameParent(a, b);
      Siblings(root, a[..n], a[n], x, b[n], y);
    }
  }

  lemma SameParent(a: Address, b: Address)
    requires Apart(a, b) && Prefix(a[..|a| - 1], b) && Prefix(b[..|b| - 1], a)
    ensures a == a[..|a| - 1] + [a[|a| - 1]] && b == a[..|a| - 1] + [b[|b| - 1]] && a[|a| - 1] != b[|b| - 1]
  {
    assert |a| == |b|;
    assert b[..|b| - 1] == a[..|a| - 1];
  }

  lemma {:induction false} CommuteUp(root: Json, a: Address, x: Json, b: Address, y: Json)
    requires Get(root, a).Some? && Get(root, b).Some? && Apart(a, b) && !Prefix(a[..|a| - 1], b)
    ensures Get(Put(root, a, x), b).Some? && Get(Put(root, b, y), a).Some?
    ensures Put(Put(root, a, x), b, y) == Put(Put(root, b, y), a, x)
    decreases |a| + |b|, 0
  {
    var a0 := a[..|a| - 1];
    assert Prefix(a0, a);
    PrefixTransitive(b, a0, a);
    PutElsewhere(root, a, x, b);
    PutElsewhere(root, b, y, a);
    PutElsewhere(root, b, y, a0);
    PutsCommute(root, a0, WithKid(Get(root, a0).value, a[|a| - 1], x), b, y);
  }

  lemma Siblings(root: Json, c: Address, i: nat, x: Json, k: nat, y: Json)
    requires Get(root, c + [i]).Some? && Get(root, c + [k]).Some? && i != k
    ensures Get(Put(root, c + [i], x), c + [k]).Some? && Get(Put(root, c + [k], y), c + [i]).Some?
    ensures Put(Put(root, c + [i], x), c + [k], y) == Put(Put(root, c + [k], y), c + [i], x)
  {
    assert (c + [i])[..|c|] == c && (c + [k])[..|c|] == c;
    var p := Get(root, c).value;
    OneKid(root, c, i, x, k, y);
    OneKid(root, c, k, y, i, x);
    KidsCommute(p, i, x, k, y);
  }

  lemma OneKid(root: Json, c: Address, i: nat, x: Json, k: nat, y: Json)
    requires Get(root, c).Some? && i < |Kids(Get(root, c).value)| && k < |Kids(Get(root, c).value)|
    ensures Get(root, c + [i]).Some? && Get(Put(root, c + [i], x), c + [k]).Some?
    ensures Put(Put(root, c + [i], x), c + [k], y) == Put(root, c, WithKid(WithKid(Get(root, c).value, i, x), k, y))
  {
    assert (c + [i])[..|c|] == c && (c + [k])[..|c|] == c;
    var p := Get(root, c).value;
    PutThere(root, c, WithKid(p, i, x));
    PutTwice(root, c, WithKid(p, i, x), WithKid(WithKid(p, i, x), k, y));
  }
}
