/** Path expressions such as ".outputs.hourly[*].P": their grammar, and the value they select. */
module Paths {
  import opened Wrappers
  import opened Decimal
  import opened Json
  import opened Pointer

  // ----- Reading a path -----------------------------------------------------------------------

  const ALL_ITEMS := "[*]"

  /** One segment of a path such as ".outputs.hourly[*].P". */
  datatype Segment = Segment(name: string, project: bool)

  predicate EndsWith(s: string, suffix: string) {
    |suffix| <= |s| && s[|s| - |suffix|..] == suffix
  }

  function ReadSegment(raw: string): Segment {
    if EndsWith(raw, ALL_ITEMS) then Segment(raw[..|raw| - |ALL_ITEMS|], true) else Segment(raw, false)
  }

  predicate Projecting(path: seq<Segment>) {
    exists i | 0 <= i < |path| :: path[i].project
  }

  /** The segments of the parts after the leading dot: none empty, at most one projection. */
  function ReadSegments(parts: seq<string>, n: nat): Option<seq<Segment>>
    requires n <= |parts|
  {
    if n == 0 then Some([])
    else
      var start, s := ReadSegments(parts, n - 1), ReadSegment(parts[n - 1]);
      if start.None? || s.name == "" || (s.project && Projecting(start.value))
      then None else Some(start.value + [s])
  }

  /** ParsePath on a text without its leading dot. */
  function ParsePath(rest: string): Option<seq<Segment>> {
    if rest == "" then Some([]) else ReadSegments(Split(rest, '.'), |Split(rest, '.')|)
  }

  /** strconv.Atoi. */
  function Atoi(s: string): Option<int> {
    var signed := s != [] && (s[0] == '-' || s[0] == '+');
    var digits := if signed then s[1..] else s;
    if digits == [] || !AllDigits(digits) then None
    else Some(if s[0] == '-' then 0 - ParseNat(digits) else ParseNat(digits))
  }

  function ChildNamed(j: Json, name: string): Option<Json> {
    match j
    case Obj(_, _) => Field(j, name)
    case Arr(items) =>
      var i := Atoi(name);
      if i.Some? && 0 <= i.value < |items| then Some(items[i.value]) else None
    case _ => None
  }

  /** evalSegs from segment i on. */
  function EvalPath(j: Json, path: seq<Segment>, i: nat): Option<Json>
    requires i <= |path|
    decreases |path| - i, 0
  {
    if i == |path| then Some(j)
    else
      var kid := ChildNamed(j, path[i].name);
      if kid.None? then None
      else if !path[i].project then EvalPath(kid.value, path, i + 1)
      else if !kid.value.Arr? then None
      else
        var all := EvalEach(kid.value.items, path, i + 1, |kid.value.items|);
        if all.None? then None else Some(Arr(all.value))
  }

  function EvalEach(items: seq<Json>, path: seq<Segment>, i: nat, n: nat): Option<seq<Json>>
    requires i <= |path| && n <= |items|
    decreases |path| - i, n + 1
  {
    if n == 0 then Some([])
    else
      var start, last := EvalEach(items, path, i, n - 1), EvalPath(items[n - 1], path, i);
      if start.None? || last.None? then None else Some(start.value + [last.value])
  }

  // ----- The grammar --------------------------------------------------------------------------

  function SegmentText(s: Segment): string {
    if s.project then s.name + ALL_ITEMS else s.name
  }

  /** A name without dots; a marker at its end is a projection. */
  predicate ProperSegment(s: Segment) {
    s.name != "" && '.' !in s.name && (!s.project ==> !EndsWith(s.name, ALL_ITEMS))
  }

  predicate OneProjection(path: seq<Segment>) {
    forall i, k | 0 <= i < k < |path| :: !(path[i].project && path[k].project)
  }

  predicate Proper(path: seq<Segment>) {
    OneProjection(path) && forall i | 0 <= i < |path| :: ProperSegment(path[i])
  }

  /** The texts with a separator between them. */
  function Joined(parts: seq<string>, sep: char): string {
    if parts == [] then ""
    else if |parts| == 1 then parts[0]
    else Joined(parts[..|parts| - 1], sep) + [sep] + parts[|parts| - 1]
  }

  function PathText(path: seq<Segment>): string {
    Joined(Texts(path), '.')
  }

  predicate Free(parts: seq<string>, sep: char) {
    forall i | 0 <= i < |parts| :: sep !in parts[i]
  }

  lemma {:induction false} SplitOne(s: string, sep: char)
    requires sep !in s
    ensures Split(s, sep) == [s]
  {
    if s != [] {
      var init := s[..|s| - 1];
      SplitOne(init, sep);
      assert s == init + [s[|s| - 1]];
    }
  }

  lemma {:induction false} SplitJoined(parts: seq<string>, sep: char)
    requires parts != [] && Free(parts, sep)
    ensures Split(Joined(parts, sep), sep) == parts
  {
    if |parts| == 1 {
      SplitOne(parts[0], sep);
    } else {
      var init, last := parts[..|parts| - 1], parts[|parts| - 1];
      SplitJoined(init, sep);
      SplitNext(Joined(init, sep), last, sep);
      assert parts == init + [last];
    }
  }

  lemma {:induction false} JoinedSplit(s: string, sep: char)
    ensures Free(Split(s, sep), sep) && Joined(Split(s, sep), sep) == s
  {
    if s != [] {
      var init, c := s[..|s| - 1], s[|s| - 1];
      JoinedSplit(init, sep);
      assert s == init + [c];
      LongerJoin(Split(init, sep), sep, c);
    }
  }

  lemma LongerJoin(parts: seq<string>, sep: char, c: char)
    requires parts != []
    ensures Joined(parts + [""], sep) == Joined(parts, sep) + [sep]
    ensures Joined(parts[|parts| - 1 := parts[|parts| - 1] + [c]], sep) == Joined(parts, sep) + [c]
  {
    var init, last := parts[..|parts| - 1], parts[|parts| - 1];
    assert (parts + [""])[..|parts|] == parts;
    var more := parts[|parts| - 1 := last + [c]];
    assert more[..|parts| - 1] == init;
    assert |parts| > 1 ==> Joined(init, sep) + [sep] + (last + [c]) == (Joined(init, sep) + [sep] + last) + [c];
  }

  lemma SegmentReads(raw: string, s: Segment)
    requires '.' !in raw
    ensures ReadSegment(raw) == s && s.name != "" <==> ProperSegment(s) && raw == SegmentText(s)
  {
    var n := |raw| - 3;
    if EndsWith(raw, ALL_ITEMS) {
      assert raw == raw[..n] + raw[n..];
    }
    if raw == SegmentText(s) && s.project {
      assert raw[..n] == s.name && raw[n..] == ALL_ITEMS;
    }
  }

  /** These are the segments of the first n parts. */
  ghost predicate Spells(parts: seq<string>, n: nat, path: seq<Segment>)
    requires n <= |parts|
  {
    |path| == n && forall i | 0 <= i < n :: ProperSegment(path[i]) && parts[i] == SegmentText(path[i])
  }

  lemma {:induction false} SegmentsRead(parts: seq<string>, n: nat, path: seq<Segment>)
    requires n <= |parts| && Free(parts, '.')
    ensures ReadSegments(parts, n) == Some(path) <==> OneProjection(path) && Spells(parts, n, path)
    decreases n, 1
  {
    if n > 0 {
      if |path| == n { SegmentsReadNext(parts, n, path); }
    }
    LengthOfRead(parts, n);
  }

  lemma {:induction false} LengthOfRead(parts: seq<string>, n: nat)
    requires n <= |parts|
    ensures ReadSegments(parts, n).Some? ==> |ReadSegments(parts, n).value| == n
  {
    if n > 0 { LengthOfRead(parts, n - 1); }
  }

  lemma {:induction false} SegmentsReadNext(parts: seq<string>, n: nat, path: seq<Segment>)
    requires 0 < n <= |parts| && Free(parts, '.') && |path| == n
    ensures ReadSegments(parts, n) == Some(path) <==> OneProjection(path) && Spells(parts, n, path)
    decreases n, 0
  {
    var init, last := path[..n - 1], path[n - 1];
    SegmentsRead(parts, n - 1, init);
    SegmentReads(parts[n - 1], last);
    LengthOfRead(parts, n - 1);
    assert path == init + [last];
    ProjectionsNext(init, last);
    SpellsNext(parts, n, init, last);
    OneMoreSegment(parts, n, init, last);
  }

  lemma OneMoreSegment(parts: seq<string>, n: nat, init: seq<Segment>, last: Segment)
    requires 0 < n <= |parts| && |init| == n - 1
    requires ReadSegments(parts, n - 1).Some? ==> |ReadSegments(parts, n - 1).value| == n - 1
    ensures ReadSegments(parts, n) == Some(init + [last]) <==>
            && ReadSegments(parts, n - 1) == Some(init) && ReadSegment(parts[n - 1]) == last && last.name != ""
            && !(last.project && Projecting(init))
  {
    var start := ReadSegments(parts, n - 1);
    if start.Some? { SameParts(start.value, ReadSegment(parts[n - 1]), init, last); }
  }

  lemma SameParts(a: seq<Segment>, x: Segment, b: seq<Segment>, y: Segment)
    requires |a| == |b|
    ensures a + [x] == b + [y] <==> a == b && x == y
  {
    if a + [x] == b + [y] { assert a == (a + [x])[..|a|] == b && (a + [x])[|a|] == (b + [y])[|b|]; }
  }

  lemma ProjectionsNext(init: seq<Segment>, last: Segment)
    ensures OneProjection(init + [last]) <==> OneProjection(init) && !(last.project && Projecting(init))
  {
    var path := init + [last];
    assert path[|init|] == last && forall i | 0 <= i < |init| :: path[i] == init[i];
    if OneProjection(path) {
      forall i, k | 0 <= i < k < |init| ensures !(init[i].project && init[k].project) {
        assert init[i] == path[i] && init[k] == path[k];
      }
      forall i | 0 <= i < |init| ensures !(init[i].project && last.project) {
        assert init[i] == path[i];
      }
    }
  }

  lemma SpellsNext(parts: seq<string>, n: nat, init: seq<Segment>, last: Segment)
    requires 0 < n <= |parts| && |init| == n - 1
    ensures Spells(parts, n, init + [last]) <==>
            Spells(parts, n - 1, init) && ProperSegment(last) && parts[n - 1] == SegmentText(last)
  {
    var path := init + [last];
    if Spells(parts, n, path) {
      forall i | 0 <= i < n - 1 ensures ProperSegment(init[i]) && parts[i] == SegmentText(init[i]) {
        assert path[i] == init[i];
      }
      assert path[n - 1] == last;
    }
  }

  function Texts(path: seq<Segment>): (parts: seq<string>)
    ensures |parts| == |path| && forall i | 0 <= i < |path| :: parts[i] == SegmentText(path[i])
  {
    seq(|path|, i requires 0 <= i < |path| => SegmentText(path[i]))
  }

  lemma NoDotInText(s: Segment)
    requires ProperSegment(s)
    ensures '.' !in SegmentText(s) && SegmentText(s) != ""
  {
  }

  lemma TextSplits(path: seq<Segment>)
    requires Proper(path) && path != []
    ensures Split(PathText(path), '.') == Texts(path) && PathText(path) != ""
    ensures Spells(Texts(path), |path|, path)
  {
    forall i | 0 <= i < |path| ensures '.' !in SegmentText(path[i]) && SegmentText(path[i]) != "" {
      assert ProperSegment(path[i]);
      NoDotInText(path[i]);
    }
    SplitJoined(Texts(path), '.');
    assert Split("", '.') == [""] && Texts(path)[0] == SegmentText(path[0]);
  }

  lemma StartsWithoutDot(path: seq<Segment>)
    requires Proper(path)
    ensures PathText(path) == "" || PathText(path)[0] != '.'
  {
    if path != [] {
      var parts := Texts(path);
      forall i | 0 <= i < |path| ensures parts[i] != "" && parts[i][0] != '.' {
        assert ProperSegment(path[i]);
        NoDotInText(path[i]);
        assert parts[i][0] in parts[i];
      }
      JoinedStarts(parts, '.');
    }
  }

  lemma {:induction false} JoinedStarts(parts: seq<string>, sep: char)
    requires parts != [] && parts[0] != ""
    ensures Joined(parts, sep) != "" && Joined(parts, sep)[0] == parts[0][0]
  {
    if |parts| > 1 { JoinedStarts(parts[..|parts| - 1], sep); }
  }

  lemma SpelledText(parts: seq<string>, path: seq<Segment>)
    requires Spells(parts, |parts|, path)
    ensures PathText(path) == Joined(parts, '.')
  {
    assert parts == Texts(path);
  }

  /** A text without its leading dot reads as a path exactly when it is the text of that path, and a proper one. */
  lemma ParsePathMeans(rest: string, path: seq<Segment>)
    ensures ParsePath(rest) == Some(path) <==> Proper(path) && rest == PathText(path)
  {
    if rest == "" {
      if Proper(path) && path != [] { TextSplits(path); }
    } else {
      var parts := Split(rest, '.');
      JoinedSplit(rest, '.');
      SegmentsRead(parts, |parts|, path);
      if Proper(path) && rest == PathText(path) { TextSplits(path); }
      if Spells(parts, |parts|, path) { SpelledText(parts, path); }
    }
  }

  // ----- The value of a path -------------------------------------------------------------------

  /** The nodes a path passes on its way from segment lo to segment hi, each a child of the one before. */
  ghost predicate Trace(nodes: seq<Json>, path: seq<Segment>, lo: nat, hi: nat)
    requires lo <= hi <= |path|
  {
    && |nodes| == hi - lo + 1
    && forall k | 0 <= k < hi - lo :: ChildNamed(nodes[k], path[lo + k].name) == Some(nodes[k + 1])
  }

  ghost predicate Leads(doc: Json, path: seq<Segment>, lo: nat, hi: nat, v: Json)
    requires lo <= hi <= |path|
  {
    exists nodes :: Trace(nodes, path, lo, hi) && nodes[0] == doc && nodes[hi - lo] == v
  }

  /** For each element, in its place, what the path leads to from segment i on. */
  ghost predicate EachLeads(items: seq<Json>, path: seq<Segment>, i: nat, v: Json)
    requires i <= |path|
  {
    && v.Arr? && |v.items| == |items|
    && forall j | 0 <= j < |items| :: Leads(items[j], path, i, |path|, v.items[j])
  }

  /** Segments lo to p lead to an array, and the rest to a value for each of its elements. */
  ghost predicate SelectsEach(doc: Json, path: seq<Segment>, lo: nat, p: nat, v: Json)
    requires lo <= p < |path|
  {
    exists items :: Leads(doc, path, lo, p + 1, Arr(items)) && EachLeads(items, path, p + 1, v)
  }

  /** The path selects v: step by step, and past a projection element by element. */
  ghost predicate Selects(doc: Json, path: seq<Segment>, v: Json) {
    if Projecting(path) then exists p: nat :: p < |path| && path[p].project && SelectsEach(doc, path, 0, p, v)
    else Leads(doc, path, 0, |path|, v)
  }

  lemma {:induction false} LeadsNext(doc: Json, path: seq<Segment>, lo: nat, hi: nat, v: Json)
    requires lo < hi <= |path|
    ensures Leads(doc, path, lo, hi, v) <==>
            ChildNamed(doc, path[lo].name).Some? && Leads(ChildNamed(doc, path[lo].name).value, path, lo + 1, hi, v)
  {
    var kid := ChildNamed(doc, path[lo].name);
    if Leads(doc, path, lo, hi, v) {
      var nodes :| Trace(nodes, path, lo, hi) && nodes[0] == doc && nodes[hi - lo] == v;
      RestOfTrace(nodes, path, lo, hi);
    }
    if kid.Some? && Leads(kid.value, path, lo + 1, hi, v) {
      var nodes :| Trace(nodes, path, lo + 1, hi) && nodes[0] == kid.value && nodes[hi - lo - 1] == v;
      LongerTrace(doc, nodes, path, lo, hi);
    }
  }

  lemma RestOfTrace(nodes: seq<Json>, path: seq<Segment>, lo: nat, hi: nat)
    requires lo < hi <= |path| && Trace(nodes, path, lo, hi)
    ensures ChildNamed(nodes[0], path[lo].name) == Some(nodes[1])
    ensures Leads(nodes[1], path, lo + 1, hi, nodes[hi - lo])
  {
    var rest := nodes[1..];
    forall k | 0 <= k < hi - lo - 1 ensures ChildNamed(rest[k], path[lo + 1 + k].name) == Some(rest[k + 1]) {
      assert ChildNamed(nodes[k + 1], path[lo + (k + 1)].name) == Some(nodes[k + 2]);
    }
    assert Trace(rest, path, lo + 1, hi) && rest[hi - lo - 1] == nodes[hi - lo];
  }

  lemma LongerTrace(doc: Json, nodes: seq<Json>, path: seq<Segment>, lo: nat, hi: nat)
    requires lo < hi <= |path| && Trace(nodes, path, lo + 1, hi)
    requires ChildNamed(doc, path[lo].name) == Some(nodes[0])
    ensures Leads(doc, path, lo, hi, nodes[hi - lo - 1])
  {
    var more := [doc] + nodes;
    forall k | 0 <= k < hi - lo ensures ChildNamed(more[k], path[lo + k].name) == Some(more[k + 1]) {
      if k > 0 { assert ChildNamed(nodes[k - 1], path[lo + 1 + (k - 1)].name) == Some(nodes[k]); }
    }
    assert Trace(more, path, lo, hi) && more[hi - lo] == nodes[hi - lo - 1];
  }

  lemma LeadsNowhere(doc: Json, path: seq<Segment>, lo: nat, v: Json)
    requires lo <= |path|
    ensures Leads(doc, path, lo, lo, v) <==> v == doc
  {
    assert Trace([doc], path, lo, lo);
  }

  predicate StraightFrom(path: seq<Segment>, i: nat) {
    forall k | i <= k < |path| :: !path[k].project
  }

  /** Without a projection the value is where the steps lead. */
  lemma {:induction false} StraightValue(doc: Json, path: seq<Segment>, i: nat, v: Json)
    requires i <= |path| && StraightFrom(path, i)
    ensures EvalPath(doc, path, i) == Some(v) <==> Leads(doc, path, i, |path|, v)
    decreases |path| - i
  {
    if i == |path| {
      LeadsNowhere(doc, path, i, v);
    } else {
      LeadsNext(doc, path, i, |path|, v);
      var kid := ChildNamed(doc, path[i].name);
      if kid.Some? { StraightValue(kid.value, path, i + 1, v); }
    }
  }

  lemma {:induction false} EachValue(items: seq<Json>, path: seq<Segment>, i: nat, n: nat, vs: seq<Json>)
    requires i <= |path| && n <= |items|
    ensures EvalEach(items, path, i, n) == Some(vs) <==>
            |vs| == n && forall j | 0 <= j < n :: EvalPath(items[j], path, i) == Some(vs[j])
  {
    if n > 0 {
      if |vs| == n {
        EachValue(items, path, i, n - 1, vs[..n - 1]);
        assert vs == vs[..n - 1] + [vs[n - 1]];
      }
      EachLength(items, path, i, n - 1);
    }
  }

  lemma {:induction false} EachLength(items: seq<Json>, path: seq<Segment>, i: nat, n: nat)
    requires i <= |path| && n <= |items|
    ensures EvalEach(items, path, i, n).Some? ==> |EvalEach(items, path, i, n).value| == n
  {
    if n > 0 { EachLength(items, path, i, n - 1); }
  }

  /** One projection, at p: the elements are evaluated from there on. */
  lemma {:induction false} ProjectedValue(doc: Json, path: seq<Segment>, i: nat, p: nat, v: Json)
    requires i <= p < |path| && path[p].project && StraightFrom(path, p + 1)
    requires forall k | i <= k < p :: !path[k].project
    ensures EvalPath(doc, path, i) == Some(v) <==> SelectsEach(doc, path, i, p, v)
    decreases p - i
  {
    var kid := ChildNamed(doc, path[i].name);
    if i < p {
      if kid.Some? { ProjectedValue(kid.value, path, i + 1, p, v); }
      EachFurther(doc, path, i, p, v);
    } else {
      EachHere(doc, path, p, v);
      if kid.Some? && kid.value.Arr? && v.Arr? {
        EachValue(kid.value.items, path, p + 1, |kid.value.items|, v.items);
        EachStraight(kid.value.items, path, p + 1, v);
      }
    }
  }

  lemma EachFurther(doc: Json, path: seq<Segment>, i: nat, p: nat, v: Json)
    requires i < p < |path|
    ensures SelectsEach(doc, path, i, p, v) <==>
            ChildNamed(doc, path[i].name).Some? && SelectsEach(ChildNamed(doc, path[i].name).value, path, i + 1, p, v)
  {
    var kid := ChildNamed(doc, path[i].name);
    if SelectsEach(doc, path, i, p, v) {
      var items :| Leads(doc, path, i, p + 1, Arr(items)) && EachLeads(items, path, p + 1, v);
      LeadsNext(doc, path, i, p + 1, Arr(items));
    }
    if kid.Some? && SelectsEach(kid.value, path, i + 1, p, v) {
      var items :| Leads(kid.value, path, i + 1, p + 1, Arr(items)) && EachLeads(items, path, p + 1, v);
      LeadsNext(doc, path, i, p + 1, Arr(items));
    }
  }

  lemma EachHere(doc: Json, path: seq<Segment>, p: nat, v: Json)
    requires p < |path|
    ensures SelectsEach(doc, path, p, p, v) <==>
            && ChildNamed(doc, path[p].name).Some? && ChildNamed(doc, path[p].name).value.Arr?
            && EachLeads(ChildNamed(doc, path[p].name).value.items, path, p + 1, v)
  {
    var kid := ChildNamed(doc, path[p].name);
    if SelectsEach(doc, path, p, p, v) {
      var items :| Leads(doc, path, p, p + 1, Arr(items)) && EachLeads(items, path, p + 1, v);
      LeadsNext(doc, path, p, p + 1, Arr(items));
      LeadsNowhere(kid.value, path, p + 1, Arr(items));
    }
    if kid.Some? && kid.value.Arr? && EachLeads(kid.value.items, path, p + 1, v) {
      LeadsNext(doc, path, p, p + 1, kid.value);
      LeadsNowhere(kid.value, path, p + 1, kid.value);
      assert Leads(doc, path, p, p + 1, Arr(kid.value.items));
    }
  }

  lemma EachStraight(items: seq<Json>, path: seq<Segment>, i: nat, v: Json)
    requires i <= |path| && StraightFrom(path, i) && v.Arr?
    ensures EachLeads(items, path, i, v) <==>
            |v.items| == |items| && forall j | 0 <= j < |items| :: EvalPath(items[j], path, i) == Some(v.items[j])
  {
    if |v.items| == |items| {
      forall j | 0 <= j < |items|
        ensures EvalPath(items[j], path, i) == Some(v.items[j]) <==> Leads(items[j], path, i, |path|, v.items[j])
      {
        StraightValue(items[j], path, i, v.items[j]);
      }
    }
  }

  /** Evaluating a path gives what it selects, and nothing when it selects nothing. */
  lemma EvalPathMeans(doc: Json, path: seq<Segment>, v: Json)
    requires OneProjection(path)
    ensures EvalPath(doc, path, 0) == Some(v) <==> Selects(doc, path, v)
  {
    if Projecting(path) {
      forall p: nat | p < |path| && path[p].project
        ensures EvalPath(doc, path, 0) == Some(v) <==> SelectsEach(doc, path, 0, p, v)
      {
        ProjectedValue(doc, path, 0, p, v);
      }
      var p: nat :| p < |path| && path[p].project;
    } else {
      StraightValue(doc, path, 0, v);
    }
  }

  // ----- Names of array elements ---------------------------------------------------------------

  /** An optional sign and digits, worth i. */
  ghost predicate Spelt(name: string, sign: string, digits: string, i: int) {
    && (sign == "" || sign == "+" || sign == "-") && digits != "" && AllDigits(digits)
    && name == sign + digits && i == Signed(sign == "-", ParseNat(digits))
  }

  /** Among the elements of an array a name means the one whose index it spells. */
  lemma ElementNamed(items: seq<Json>, name: string, v: Json)
    ensures ChildNamed(Arr(items), name) == Some(v) <==>
            exists i: nat, sign, digits :: i < |items| && Spelt(name, sign, digits, i) && v == items[i]
  {
    if ChildNamed(Arr(items), name).Some? {
      var sign, digits := AtoiSpelt(name);
    }
    forall i: nat, sign, digits | Spelt(name, sign, digits, i) ensures Atoi(name) == Some(i) {
      SpeltAtoi(name, sign, digits, i);
    }
  }

  lemma AtoiSpelt(name: string) returns (sign: string, digits: string)
    requires Atoi(name).Some?
    ensures Spelt(name, sign, digits, Atoi(name).value)
  {
    var signed := name[0] == '-' || name[0] == '+';
    sign, digits := if signed then name[..1] else "", if signed then name[1..] else name;
  }

  lemma SpeltAtoi(name: string, sign: string, digits: string, i: int)
    requires Spelt(name, sign, digits, i)
    ensures Atoi(name) == Some(i)
  {
    DigitAt(digits, 0);
    assert sign != "" ==> name[1..] == digits;
    assert sign == "" ==> name == digits;
  }
}
