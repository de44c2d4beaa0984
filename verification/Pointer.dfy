/** JSON pointers (RFC 6901): writing them, and reading them by section 4 of that document. */
module Pointer {
  import opened Wrappers
  import opened Decimal
  import opened Json

  // ----- Tokens ------------------------------------------------------------------------------

  /** strings.ReplaceAll of one character by a text. */
  function Replaced(s: string, c: char, t: string): string {
    if s == [] then []
    else Replaced(s[..|s| - 1], c, t) + if s[|s| - 1] == c then t else [s[|s| - 1]]
  }

  function Escape(token: string): string {
    Replaced(Replaced(token, '~', "~0"), '/', "~1")
  }

  /** Every "~c" in s replaced by one character. */
  function Unpaired(s: string, c: char, to: char): string {
    if s == [] then []
    else if |s| >= 2 && s[|s| - 2] == '~' && s[|s| - 1] == c then Unpaired(s[..|s| - 2], c, to) + [to]
    else Unpaired(s[..|s| - 1], c, to) + [s[|s| - 1]]
  }

  /** Section 4 of RFC 6901: first "~1" becomes "/", then "~0" becomes "~". */
  function Unescape(token: string): string {
    Unpaired(Unpaired(token, '1', '/'), '0', '~')
  }

  lemma {:induction false} UnpairedOne(s: string, x: char, c: char, r: char)
    requires x != c
    ensures Unpaired(s + [x], c, r) == Unpaired(s, c, r) + [x]
  {
    assert (s + [x])[..|s|] == s;
  }

  lemma {:induction false} UnpairedPair(s: string, x: char, c: char, r: char)
    requires c != '~'
    ensures Unpaired(s + ['~', x], c, r) == if x == c then Unpaired(s, c, r) + [r] else Unpaired(s, c, r) + ['~', x]
  {
    var t := s + ['~', x];
    if x == c {
      assert t[..|t| - 2] == s;
    } else {
      assert t == (s + ['~']) + [x];
      UnpairedOne(s, '~', c, r);
      UnpairedOne(s + ['~'], x, c, r);
    }
  }

  /** The first pass of reading undoes the second pass of writing. */
  lemma {:induction false} SlashesBack(s: string)
    ensures Unpaired(Escape(s), '1', '/') == Replaced(s, '~', "~0")
  {
    if s != [] {
      var init, c := s[..|s| - 1], s[|s| - 1];
      SlashesBack(init);
      EscapeLast(init, c);
      assert s == init + [c];
      if c == '~' {
        UnpairedPair(Escape(init), '0', '1', '/');
      } else if c == '/' {
        UnpairedPair(Escape(init), '1', '1', '/');
      } else {
        LastPlain(init, c);
      }
    }
  }

  /** What escaping adds for one more character. */
  function EscapedChar(c: char): string {
    if c == '~' then "~0" else if c == '/' then "~1" else [c]
  }

  lemma EscapeLast(init: string, c: char)
    ensures Escape(init + [c]) == Escape(init) + EscapedChar(c)
  {
    var r := Replaced(init, '~', "~0");
    ReplacedLast(init, c, '~', "~0");
    if c == '~' {
      assert r + "~0" == (r + ['~']) + ['0'];
      ReplacedLast(r + ['~'], '0', '/', "~1");
      ReplacedLast(r, '~', '/', "~1");
    } else {
      ReplacedLast(r, c, '/', "~1");
    }
  }

  lemma ReplacedLast(s: string, x: char, c: char, t: string)
    ensures Replaced(s + [x], c, t) == Replaced(s, c, t) + if x == c then t else [x]
  {
    assert (s + [x])[..|s|] == s;
  }

  /** In an escaped text a "~" is never the last character. */
  lemma {:induction false} NoDanglingTilde(s: string)
    ensures Escape(s) == [] || Escape(s)[|Escape(s)| - 1] != '~'
  {
    if s != [] {
      assert s == s[..|s| - 1] + [s[|s| - 1]];
      EscapeLast(s[..|s| - 1], s[|s| - 1]);
    }
  }

  lemma LastPlain(init: string, c: char)
    requires c != '~' && c != '/'
    ensures Unpaired(Escape(init) + [c], '1', '/') == Unpaired(Escape(init), '1', '/') + [c]
  {
    NoDanglingTilde(init);
    assert (Escape(init) + [c])[..|Escape(init)|] == Escape(init);
  }

  lemma {:induction false} TildesBack(s: string)
    ensures Unpaired(Replaced(s, '~', "~0"), '0', '~') == s
  {
    if s != [] {
      var init, c := s[..|s| - 1], s[|s| - 1];
      TildesBack(init);
      TildesNext(init, c);
      assert s == init + [c];
    }
  }

  lemma TildesNext(init: string, c: char)
    requires Unpaired(Replaced(init, '~', "~0"), '0', '~') == init
    ensures Unpaired(Replaced(init + [c], '~', "~0"), '0', '~') == init + [c]
  {
    NoTilde(init);
    ReplacedLast(init, c, '~', "~0");
    TildeStep(Replaced(init, '~', "~0"), c, init);
  }

  lemma TildeStep(r: string, c: char, init: string)
    requires Unpaired(r, '0', '~') == init && (r == [] || r[|r| - 1] != '~')
    ensures Unpaired(r + if c == '~' then "~0" else [c], '0', '~') == init + [c]
  {
    if c == '~' { UnpairedPair(r, '0', '0', '~'); } else { PlainStays(r, c); }
  }

  lemma PlainStays(r: string, c: char)
    requires r == [] || r[|r| - 1] != '~'
    ensures Unpaired(r + [c], '0', '~') == Unpaired(r, '0', '~') + [c]
  {
    Appended(r, c);
    OneStays(r + [c], '0', '~');
  }

  lemma Appended(r: string, c: char)
    ensures var s := r + [c]; s[..|r|] == r && s[|r|] == c && (r != [] ==> s[|r| - 1] == r[|r| - 1])
  {
  }

  lemma OneStays(s: string, c: char, to: char)
    requires s != [] && (|s| >= 2 ==> s[|s| - 2] != '~')
    ensures Unpaired(s, c, to) == Unpaired(s[..|s| - 1], c, to) + [s[|s| - 1]]
  {
  }

  lemma {:induction false} NoTilde(s: string)
    ensures var r := Replaced(s, '~', "~0"); r == [] || r[|r| - 1] != '~'
  {
  }

  /** Reading a token gives back the key that was written. */
  lemma UnescapeEscape(key: string)
    ensures Unescape(Escape(key)) == key
  {
    SlashesBack(key);
    TildesBack(key);
  }

  lemma {:induction false} EscapeHasNoSlash(key: string)
    ensures '/' !in Escape(key)
  {
    if key != [] {
      assert key == key[..|key| - 1] + [key[|key| - 1]];
      EscapeHasNoSlash(key[..|key| - 1]);
      EscapeLast(key[..|key| - 1], key[|key| - 1]);
    }
  }

  // ----- Splitting -----------------------------------------------------------------------------

  /** strings.Split on one character. */
  function Split(s: string, sep: char): (parts: seq<string>)
    ensures |parts| >= 1
  {
    if s == [] then [""]
    else
      var parts, c := Split(s[..|s| - 1], sep), s[|s| - 1];
      if c == sep then parts + [""] else parts[|parts| - 1 := parts[|parts| - 1] + [c]]
  }

  /** One more token after a separator. */
  lemma {:induction false} SplitNext(s: string, token: string, sep: char)
    requires sep !in token
    ensures Split(s + [sep] + token, sep) == Split(s, sep) + [token]
  {
    var t := s + [sep] + token;
    if token == [] {
      assert t[..|t| - 1] == s;
    } else {
      var init := token[..|token| - 1];
      SplitNext(s, init, sep);
      assert t[..|t| - 1] == s + [sep] + init;
      assert token == init + [token[|token| - 1]];
      var parts := Split(s, sep) + [init];
      assert parts[|parts| - 1 := token] == Split(s, sep) + [token];
    }
  }

  // ----- Reading a pointer ------------------------------------------------------------------------

  /** An array index: digits without a leading zero. */
  function ArrayIndex(token: string): Option<nat> {
    if Whole(token) then Some(ParseNat(token)) else None
  }

  function Child(j: Json, token: string): Option<Json> {
    match j
    case Obj(_, _) => Field(j, token)
    case Arr(items) =>
      var i := ArrayIndex(token);
      if i.Some? && i.value < |items| then Some(items[i.value]) else None
    case _ => None
  }

  /** The node the first n tokens lead to. */
  function Follow(root: Json, tokens: seq<string>, n: nat): Option<Json>
    requires 1 <= n <= |tokens|
  {
    if n == 1 then Some(root)
    else
      match Follow(root, tokens, n - 1)
      case Some(j) => Child(j, Unescape(tokens[n - 1]))
      case None => None
  }

  function FollowAll(root: Json, tokens: seq<string>): Option<Json>
    requires |tokens| >= 1
  {
    if tokens[0] != "" then None else Follow(root, tokens, |tokens|)
  }

  /** Section 4 of RFC 6901: the empty pointer is the whole document, any other starts with a slash. */
  function Eval(root: Json, pointer: string): Option<Json> {
    FollowAll(root, Split(pointer, '/'))
  }

  // ----- Writing a pointer -------------------------------------------------------------------------

  /** The token for child i of j. */
  function Token(j: Json, i: nat): string
    requires i < |Kids(j)|
  {
    if j.Obj? && |j.keys| == |j.items| then Escape(j.keys[i]) else NatText(i)
  }

  /** The pointer walk hands down to child i. */
  function Extend(pointer: string, j: Json, i: nat): string
    requires i < |Kids(j)|
  {
    pointer + ['/'] + Token(j, i)
  }

  lemma {:induction false} DigitsAreNotSlashes(s: string)
    requires AllDigits(s)
    ensures '/' !in s
  {
    if s != [] {
      DigitsAreNotSlashes(s[..|s| - 1]);
      assert s == s[..|s| - 1] + [s[|s| - 1]];
    }
  }

  lemma TokenReads(j: Json, i: nat)
    requires i < |Kids(j)| && WellFormed(j)
    ensures '/' !in Token(j, i) && Child(j, Unescape(Token(j, i))) == Some(Kids(j)[i])
  {
    if j.Obj? {
      EscapeHasNoSlash(j.keys[i]);
      UnescapeEscape(j.keys[i]);
      PositionOf(j.keys, i);
    } else {
      var t := NatText(i);
      DigitsAreNotSlashes(t);
      DigitsUnescape(t);
      NatTextParses(i);
      NatTextIsWhole(i);
    }
  }

  lemma {:induction false} DigitsUnpaired(s: string, c: char, r: char)
    requires AllDigits(s)
    ensures Unpaired(s, c, r) == s
  {
    if s != [] {
      if |s| >= 2 { DigitAt(s, |s| - 2); }
      DigitsUnpaired(s[..|s| - 1], c, r);
    }
  }

  lemma DigitsUnescape(s: string)
    requires AllDigits(s)
    ensures Unescape(s) == s
  {
    DigitsUnpaired(s, '1', '/');
    DigitsUnpaired(s, '0', '~');
  }

  lemma {:induction false} FollowSame(root: Json, s: seq<string>, t: seq<string>, n: nat)
    requires 1 <= n <= |s| && n <= |t| && forall i | 0 <= i < n :: s[i] == t[i]
    ensures Follow(root, s, n) == Follow(root, t, n)
  {
    if n > 1 {
      FollowSame(root, s, t, n - 1);
      assert s[n - 1] == t[n - 1];
    }
  }

  /** A pointer extended by a token leads to that child. */
  lemma EvalExtend(root: Json, pointer: string, j: Json, token: string)
    requires Eval(root, pointer) == Some(j) && '/' !in token
    ensures Eval(root, pointer + ['/'] + token) == Child(j, Unescape(token))
  {
    SplitNext(pointer, token, '/');
    FollowOneMore(root, Split(pointer, '/'), token, j);
  }

  lemma FollowOneMore(root: Json, tokens: seq<string>, token: string, j: Json)
    requires |tokens| >= 1 && FollowAll(root, tokens) == Some(j)
    ensures FollowAll(root, tokens + [token]) == Child(j, Unescape(token))
  {
    FollowSame(root, tokens + [token], tokens, |tokens|);
  }

  // ----- The pointer of an address ---------------------------------------------------------------------

  /** The pointer of the node at a. */
  function PathText(root: Json, a: Address): string
    requires Get(root, a).Some?
  {
    if a == [] then "" else Extend(PathText(root, a[..|a| - 1]), Get(root, a[..|a| - 1]).value, a[|a| - 1])
  }

  function TokensOf(root: Json, a: Address): (tokens: seq<string>)
    requires Get(root, a).Some?
    ensures |tokens| == |a| + 1
  {
    if a == [] then [""] else TokensOf(root, a[..|a| - 1]) + [Token(Get(root, a[..|a| - 1]).value, a[|a| - 1])]
  }

  /** Read by section 4 of RFC 6901, it leads to the node. */
  lemma {:induction false} PathTextReads(root: Json, a: Address)
    requires WellFormed(root) && Get(root, a).Some?
    ensures Eval(root, PathText(root, a)) == Get(root, a) && Split(PathText(root, a), '/') == TokensOf(root, a)
  {
    if a == [] {
      assert Split("", '/') == [""];
    } else {
      var a0, i := a[..|a| - 1], a[|a| - 1];
      var j := Get(root, a0).value;
      PathTextReads(root, a0);
      NodesAreWellFormed(root, a0);
      TokenReads(j, i);
      EvalExtend(root, PathText(root, a0), j, Token(j, i));
      SplitNext(PathText(root, a0), Token(j, i), '/');
    }
  }

  lemma TokenIsInjective(j: Json, i: nat, k: nat)
    requires WellFormed(j) && i < |Kids(j)| && k < |Kids(j)| && Token(j, i) == Token(j, k)
    ensures i == k
  {
    if j.Obj? {
      UnescapeEscape(j.keys[i]);
      UnescapeEscape(j.keys[k]);
      PositionOf(j.keys, i);
      PositionOf(j.keys, k);
    } else {
      NatTextParses(i);
      NatTextParses(k);
    }
  }

  lemma {:induction false} TokensUpTo(root: Json, b: Address, n: nat)
    requires Get(root, b).Some? && n < |b|
    ensures Get(root, b[..n]).Some? && b[n] < |Kids(Get(root, b[..n]).value)|
    ensures TokensOf(root, b)[n + 1] == Token(Get(root, b[..n]).value, b[n])
    decreases |b|
  {
    if n < |b| - 1 {
      TokensUpTo(root, b[..|b| - 1], n);
      assert b[..|b| - 1][..n] == b[..n];
    }
  }

  /** Pointers that agree on their first n tokens after the root lead the same way so far. */
  lemma {:induction false} TokensDecide(root: Json, a: Address, b: Address, n: nat)
    requires WellFormed(root) && Get(root, a).Some? && Get(root, b).Some? && n <= |a| && n <= |b|
    requires forall i | 0 <= i <= n :: TokensOf(root, a)[i] == TokensOf(root, b)[i]
    ensures a[..n] == b[..n]
    decreases n
  {
    if n > 0 {
      TokensDecide(root, a, b, n - 1);
      SameStep(root, a, b, n - 1);
      OneFurther(a, b, n - 1);
    }
  }

  lemma SameStep(root: Json, a: Address, b: Address, n: nat)
    requires WellFormed(root) && Get(root, a).Some? && Get(root, b).Some? && n < |a| && n < |b|
    requires a[..n] == b[..n] && TokensOf(root, a)[n + 1] == TokensOf(root, b)[n + 1]
    ensures a[n] == b[n]
  {
    TokensUpTo(root, a, n);
    TokensUpTo(root, b, n);
    NodesAreWellFormed(root, a[..n]);
    TokenIsInjective(Get(root, a[..n]).value, a[n], b[n]);
  }

  /** One pointer is a leading part of another, token by token. */
  predicate StartsPointer(p: string, q: string) {
    var s, t := Split(p, '/'), Split(q, '/');
    |s| <= |t| && forall i | 0 <= i < |s| :: s[i] == t[i]
  }

  /** Pointers of nodes apart from each other do not start one another. */
  lemma ApartPointers(root: Json, a: Address, b: Address)
    requires WellFormed(root) && Get(root, a).Some? && Get(root, b).Some? && Apart(a, b)
    ensures !StartsPointer(PathText(root, a), PathText(root, b))
  {
    PathTextReads(root, a);
    PathTextReads(root, b);
    assert a[..|a|] == a;
    if StartsPointer(PathText(root, a), PathText(root, b)) { TokensDecide(root, a, b, |a|); }
  }
}
