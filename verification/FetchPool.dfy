/**
 The concurrent fetch of one level: a feeder, a bounded set of fetchers and a collector,
 connected by channels. The feeder hands over resolvents in document order and reports the
 rest as skipped once the collector has closed `stop`; a select may still pick the hand-over
 after that. The context stays live.
 */
module FetchPool {
  import opened Wrappers
  import opened Json

  /** What fetching one resolvent yields; a skip is a context error too. */
  datatype Outcome = Body(series: Json) | Genuine(error: string) | ContextError(error: string)

  const SKIPPED := ContextError("fetch skipped after another resolvent failed")

  /** One message on the results channel, for the unique resolvent at position `at`. */
  datatype Message = Message(at: nat, outcome: Outcome)

  datatype State = State(
    next: nat,                       // the feeder's position
    fetchers: seq<Option<nat>>,      // the resolvent each fetcher works on
    buffer: seq<Message>,            // the results channel
    got: map<nat, Outcome>,          // what the collector has received
    closes: nat)                     // how often stop was closed

  predicate Stopped(s: State) {
    s.closes > 0
  }

  predicate IsError(o: Outcome) {
    !o.Body?
  }

  predicate HasError(got: map<nat, Outcome>) {
    exists i | i in got :: IsError(got[i])
  }

  function Init(fetchers: nat): State {
    State(0, seq(fetchers, _ => None), [], map[], 0)
  }

  datatype Step = Feed(w: nat) | Skip | Send(w: nat) | Collect

  /** `fetch` holds the outcome each unique resolvent's fetch has; the results channel has
      room for one message per unique resolvent. */
  predicate Enabled(fetch: seq<Outcome>, s: State, step: Step) {
    match step
    case Feed(w) => s.next < |fetch| && w < |s.fetchers| && s.fetchers[w] == None
    case Skip => s.next < |fetch| && Stopped(s) && |s.buffer| < |fetch|
    case Send(w) => w < |s.fetchers| && s.fetchers[w].Some? && s.fetchers[w].value < |fetch| && |s.buffer| < |fetch|
    case Collect => s.buffer != [] && |s.got| < |fetch|
  }

  function Next(fetch: seq<Outcome>, s: State, step: Step): State
    requires Enabled(fetch, s, step)
  {
    match step
    case Feed(w) => s.(fetchers := s.fetchers[w := Some(s.next)], next := s.next + 1)
    case Skip => s.(buffer := s.buffer + [Message(s.next, SKIPPED)], next := s.next + 1)
    case Send(w) =>
      var i := s.fetchers[w].value;
      s.(buffer := s.buffer + [Message(i, fetch[i])], fetchers := s.fetchers[w := None])
    case Collect =>
      var m := s.buffer[0];
      s.(buffer := s.buffer[1..], got := s.got[m.at := m.outcome],
         closes := if IsError(m.outcome) && !HasError(s.got) then s.closes + 1 else s.closes)
  }

  // ----- Each resolvent is in exactly one place -------------------------------------

  ghost predicate Fetching(s: State, i: nat) {
    exists w :: 0 <= w < |s.fetchers| && s.fetchers[w] == Some(i)
  }

  ghost predicate Buffered(s: State, i: nat) {
    exists k :: 0 <= k < |s.buffer| && s.buffer[k].at == i
  }

  ghost predicate Placed(s: State) {
    && (forall i: nat :: Fetching(s, i) || Buffered(s, i) || i in s.got ==> i < s.next)
    && (forall i :: 0 <= i < s.next ==> Fetching(s, i) || Buffered(s, i) || i in s.got)
    && (forall i | i in s.got :: !Fetching(s, i) && !Buffered(s, i))
    && (forall i: nat :: !(Fetching(s, i) && Buffered(s, i)))
    && (forall v, w | 0 <= v < w < |s.fetchers| && s.fetchers[v].Some? :: s.fetchers[v] != s.fetchers[w])
    && (forall k, l | 0 <= k < l < |s.buffer| :: s.buffer[k].at != s.buffer[l].at)
  }

  /** Stop is closed at most once, by the first error collected. */
  ghost predicate StopsOnce(s: State) {
    s.closes == if HasError(s.got) then 1 else 0
  }

  /** Nothing before the first failing resolvent is ever skipped. */
  ghost predicate Truthful(fetch: seq<Outcome>, s: State, first: nat) {
    && (forall k | 0 <= k < |s.buffer| && s.buffer[k].at <= first && s.buffer[k].at < |fetch| ::
          s.buffer[k].outcome == fetch[s.buffer[k].at])
    && (forall i | i in s.got && i <= first && i < |fetch| :: s.got[i] == fetch[i])
    && (Stopped(s) ==> first < s.next)
  }

  ghost predicate Inv(fetch: seq<Outcome>, s: State, first: nat) {
    s.next <= |fetch| && Placed(s) && StopsOnce(s) && Truthful(fetch, s, first)
  }

  /** `first` is the first resolvent in document order whose fetch fails, or past the end. */
  ghost predicate FirstFailure(fetch: seq<Outcome>, first: nat) {
    first <= |fetch| && (forall i | 0 <= i < first :: fetch[i].Body?) && (first < |fetch| ==> IsError(fetch[first]))
  }

  lemma FeedKeeps(fetch: seq<Outcome>, s: State, first: nat, w: nat)
    requires Inv(fetch, s, first) && Enabled(fetch, s, Feed(w))
    ensures Inv(fetch, Next(fetch, s, Feed(w)), first)
  {
    var s' := Next(fetch, s, Feed(w));
    assert s'.fetchers[w] == Some(s.next) && Fetching(s', s.next);
    forall i: nat ensures Fetching(s', i) <==> Fetching(s, i) || i == s.next {
      if Fetching(s, i) {
        var v :| 0 <= v < |s.fetchers| && s.fetchers[v] == Some(i);
        assert s'.fetchers[v] == Some(i);
      }
    }
    forall i: nat ensures Buffered(s', i) <==> Buffered(s, i) { }
    forall v, u | 0 <= v < u < |s'.fetchers| && s'.fetchers[v].Some? ensures s'.fetchers[v] != s'.fetchers[u] {
      if v != w { assert Fetching(s, s.fetchers[v].value); }
      if u != w && s.fetchers[u].Some? { assert Fetching(s, s.fetchers[u].value); }
    }
  }

  lemma SkipKeeps(fetch: seq<Outcome>, s: State, first: nat)
    requires Inv(fetch, s, first) && Enabled(fetch, s, Skip)
    ensures Inv(fetch, Next(fetch, s, Skip), first)
  {
    var s' := Next(fetch, s, Skip);
    Appended(s, s', Message(s.next, SKIPPED));
    forall i: nat ensures Fetching(s', i) <==> Fetching(s, i) { }
    forall k | 0 <= k < |s.buffer| ensures s.buffer[k].at < s.next { assert Buffered(s, s.buffer[k].at); }
  }

  lemma Appended(s: State, s': State, m: Message)
    requires s'.buffer == s.buffer + [m]
    ensures forall i: nat :: Buffered(s', i) <==> Buffered(s, i) || i == m.at
  {
    assert s'.buffer[|s.buffer|] == m;
    forall i: nat ensures Buffered(s', i) <==> Buffered(s, i) || i == m.at {
      if Buffered(s, i) {
        var k :| 0 <= k < |s.buffer| && s.buffer[k].at == i;
        assert s'.buffer[k].at == i;
      }
    }
  }

  lemma SendKeeps(fetch: seq<Outcome>, s: State, first: nat, w: nat)
    requires Inv(fetch, s, first) && Enabled(fetch, s, Send(w))
    ensures Inv(fetch, Next(fetch, s, Send(w)), first)
  {
    var s', i := Next(fetch, s, Send(w)), s.fetchers[w].value;
    assert Fetching(s, i);
    Appended(s, s', Message(i, fetch[i]));
    forall j: nat ensures Fetching(s', j) <==> Fetching(s, j) && j != i {
      if Fetching(s, j) && j != i {
        var v :| 0 <= v < |s.fetchers| && s.fetchers[v] == Some(j);
        assert s'.fetchers[v] == Some(j);
      }
    }
    forall k | 0 <= k < |s.buffer| ensures s.buffer[k].at != i { assert Buffered(s, s.buffer[k].at); }
  }

  lemma CollectKeeps(fetch: seq<Outcome>, s: State, first: nat)
    requires Inv(fetch, s, first) && FirstFailure(fetch, first) && Enabled(fetch, s, Collect)
    ensures Inv(fetch, Next(fetch, s, Collect), first)
  {
    var s', m := Next(fetch, s, Collect), s.buffer[0];
    assert Buffered(s, m.at);
    forall i: nat ensures Buffered(s', i) <==> Buffered(s, i) && i != m.at {
      if Buffered(s, i) && i != m.at {
        var k :| 0 <= k < |s.buffer| && s.buffer[k].at == i;
        assert s'.buffer[k - 1].at == i;
      }
      if Buffered(s', i) {
        var k :| 0 <= k < |s'.buffer| && s'.buffer[k].at == i;
        assert s.buffer[k + 1].at == i;
      }
    }
    forall i: nat ensures Fetching(s', i) <==> Fetching(s, i) { }
    CollectErrors(s.got, m);
    forall k | 0 <= k < |s'.buffer| ensures s'.buffer[k] == s.buffer[k + 1] { }
  }

  lemma CollectErrors(got: map<nat, Outcome>, m: Message)
    requires m.at !in got
    ensures HasError(got[m.at := m.outcome]) <==> HasError(got) || IsError(m.outcome)
  {
    var got' := got[m.at := m.outcome];
    if HasError(got) { var i :| i in got && IsError(got[i]); assert i in got' && IsError(got'[i]); }
    assert m.at in got' && got'[m.at] == m.outcome;
  }

  lemma StepKeepsInv(fetch: seq<Outcome>, s: State, first: nat, step: Step)
    requires Inv(fetch, s, first) && FirstFailure(fetch, first) && Enabled(fetch, s, step)
    ensures Inv(fetch, Next(fetch, s, step), first)
  {
    match step
    case Feed(w) => FeedKeeps(fetch, s, first, w);
    case Skip => SkipKeeps(fetch, s, first);
    case Send(w) => SendKeeps(fetch, s, first, w);
    case Collect => CollectKeeps(fetch, s, first);
  }

  // ----- Runs ------------------------------------------------------------------------

  ghost predicate Run(fetch: seq<Outcome>, workers: nat, tr: seq<State>, steps: seq<Step>) {
    && |tr| == |steps| + 1 && tr[0] == Init(workers)
    && (forall i | 0 <= i < |steps| :: Takes(fetch, tr[i], steps[i], tr[i + 1]))
  }

  ghost predicate Takes(fetch: seq<Outcome>, s: State, step: Step, s': State) {
    Enabled(fetch, s, step) && s' == Next(fetch, s, step)
  }

  lemma InitIsSound(fetch: seq<Outcome>, workers: nat, first: nat)
    ensures Inv(fetch, Init(workers), first)
  {
  }

  lemma {:induction false} RunsKeepInv(fetch: seq<Outcome>, workers: nat, tr: seq<State>, steps: seq<Step>,
                                       first: nat, i: nat)
    requires Run(fetch, workers, tr, steps) && FirstFailure(fetch, first) && i < |tr|
    ensures Inv(fetch, tr[i], first) && |tr[i].fetchers| == workers
  {
    if i == 0 {
      InitIsSound(fetch, workers, first);
    } else {
      RunsKeepInv(fetch, workers, tr, steps, first, i - 1);
      assert Takes(fetch, tr[i - 1], steps[i - 1], tr[i]);
      StepKeepsInv(fetch, tr[i - 1], first, steps[i - 1]);
    }
  }

  lemma FindFirstFailure(fetch: seq<Outcome>) returns (first: nat)
    ensures FirstFailure(fetch, first)
  {
    first := 0;
    while first < |fetch| && fetch[first].Body?
      invariant first <= |fetch| && forall i | 0 <= i < first :: fetch[i].Body?
    {
      first := first + 1;
    }
  }

  // ----- No send blocks ----------------------------------------------------------------

  function Upto(n: nat): (r: set<nat>)
    ensures forall i: nat :: i in r <==> i < n
  {
    if n == 0 then {} else Upto(n - 1) + {n - 1}
  }

  lemma {:induction false} UptoSize(n: nat)
    ensures |Upto(n)| == n
  {
    if n > 0 {
      UptoSize(n - 1);
      assert Upto(n) == Upto(n - 1) + {n - 1};
    }
  }

  function Positions(buffer: seq<Message>): set<nat> {
    set k | 0 <= k < |buffer| :: buffer[k].at
  }

  lemma {:induction false} PositionsSize(buffer: seq<Message>)
    requires forall k, l | 0 <= k < l < |buffer| :: buffer[k].at != buffer[l].at
    ensures |Positions(buffer)| == |buffer|
  {
    if buffer != [] {
      var n := |buffer| - 1;
      PositionsSize(buffer[..n]);
      forall i ensures i in Positions(buffer) <==> i in Positions(buffer[..n]) + {buffer[n].at} {
        if i in Positions(buffer) {
          var k :| 0 <= k < |buffer| && buffer[k].at == i;
          if k < n { assert buffer[..n][k].at == i; }
        }
        if i in Positions(buffer[..n]) {
          var k :| 0 <= k < n && buffer[..n][k].at == i;
          assert buffer[k].at == i;
        }
      }
      assert Positions(buffer) == Positions(buffer[..n]) + {buffer[n].at};
      assert buffer[n].at !in Positions(buffer[..n]);
    }
  }

  /** Whoever has a message to send finds room: the channel is never full for a sender. */
  lemma RoomForSender(fetch: seq<Outcome>, s: State, first: nat, i: nat)
    requires Inv(fetch, s, first) && i < |fetch| && !Buffered(s, i)
    ensures |s.buffer| < |fetch|
  {
    PositionsSize(s.buffer);
    forall j | j in Positions(s.buffer) ensures j in Upto(|fetch|) - {i} { assert Buffered(s, j); }
    SubsetSize(Positions(s.buffer), Upto(|fetch|) - {i});
    UptoSize(|fetch|);
  }

  /** In every reachable state, every pending send can go ahead at once. */
  lemma SendsNeverBlock(fetch: seq<Outcome>, workers: nat, tr: seq<State>, steps: seq<Step>, i: nat)
    requires Run(fetch, workers, tr, steps) && i < |tr|
    ensures |tr[i].fetchers| == workers
    ensures forall w | 0 <= w < workers && tr[i].fetchers[w].Some? :: Enabled(fetch, tr[i], Send(w))
    ensures tr[i].next < |fetch| && Stopped(tr[i]) ==> Enabled(fetch, tr[i], Skip)
  {
    var s := tr[i];
    var first := FindFirstFailure(fetch);
    RunsKeepInv(fetch, workers, tr, steps, first, i);
    forall w | 0 <= w < workers && s.fetchers[w].Some? ensures Enabled(fetch, s, Send(w)) {
      assert Fetching(s, s.fetchers[w].value);
      RoomForSender(fetch, s, first, s.fetchers[w].value);
    }
    if s.next < |fetch| { RoomForSender(fetch, s, first, s.next); }
  }

  // ----- Every run ends, with one result per resolvent --------------------------------------

  function Busy(fetchers: seq<Option<nat>>): nat {
    if fetchers == [] then 0 else Busy(fetchers[..|fetchers| - 1]) + (if fetchers[|fetchers| - 1].Some? then 1 else 0)
  }

  lemma {:induction false} BusyUpdate(fetchers: seq<Option<nat>>, w: nat, x: Option<nat>)
    requires w < |fetchers|
    ensures Busy(fetchers[w := x]) == Busy(fetchers) - (if fetchers[w].Some? then 1 else 0) + (if x.Some? then 1 else 0)
  {
    var n := |fetchers| - 1;
    if w == n {
      assert fetchers[w := x][..n] == fetchers[..n];
    } else {
      assert fetchers[w := x][..n] == fetchers[..n][w := x];
      BusyUpdate(fetchers[..n], w, x);
    }
  }

  function Measure(fetch: seq<Outcome>, s: State): int {
    3 * (|fetch| - s.next) + 2 * Busy(s.fetchers) + |s.buffer|
  }

  /** Each step brings the end nearer, so a run has at most three steps per resolvent. */
  lemma StepsDecrease(fetch: seq<Outcome>, s: State, step: Step)
    requires s.next <= |fetch| && Enabled(fetch, s, step)
    ensures 0 <= Measure(fetch, Next(fetch, s, step)) < Measure(fetch, s)
  {
    match step
    case Feed(w) => BusyUpdate(s.fetchers, w, Some(s.next));
    case Send(w) => BusyUpdate(s.fetchers, w, None);
    case _ =>
  }

  lemma {:induction false} IdleIsZero(fetchers: seq<Option<nat>>)
    requires forall w | 0 <= w < |fetchers| :: fetchers[w] == None
    ensures Busy(fetchers) == 0
  {
    if fetchers != [] { IdleIsZero(fetchers[..|fetchers| - 1]); }
  }

  lemma {:induction false} RunsAreShort(fetch: seq<Outcome>, workers: nat, tr: seq<State>, steps: seq<Step>, i: nat)
    requires Run(fetch, workers, tr, steps) && i < |tr|
    ensures tr[i].next <= |fetch| && Measure(fetch, tr[i]) + i <= 3 * |fetch| && Measure(fetch, tr[i]) >= 0
  {
    if i == 0 {
      IdleIsZero(tr[0].fetchers);
    } else {
      RunsAreShort(fetch, workers, tr, steps, i - 1);
      assert Takes(fetch, tr[i - 1], steps[i - 1], tr[i]);
      StepsDecrease(fetch, tr[i - 1], steps[i - 1]);
    }
  }

  /** No deadlock: until the collector has every result some step can be taken, so every run
      extends to one that ends, after at most 3 steps per resolvent, with one result each. */
  lemma NeverStuck(fetch: seq<Outcome>, workers: nat, tr: seq<State>, steps: seq<Step>) returns (step: Step)
    requires Run(fetch, workers, tr, steps) && workers >= 1
    ensures |steps| <= 3 * |fetch|
    ensures var s := tr[|steps|];
            if |s.got| < |fetch| then Enabled(fetch, s, step) else s.got.Keys == Upto(|fetch|)
  {
    var s := tr[|steps|];
    var first := FindFirstFailure(fetch);
    RunsKeepInv(fetch, workers, tr, steps, first, |steps|);
    RunsAreShort(fetch, workers, tr, steps, |steps|);
    step := Collect;
    if |s.got| < |fetch| {
      if s.buffer == [] {
        if exists w :: 0 <= w < workers && s.fetchers[w].Some? {
          var w :| 0 <= w < workers && s.fetchers[w].Some?;
          SendsNeverBlock(fetch, workers, tr, steps, |steps|);
          step := Send(w);
        } else {
          CollectedAll(s);
          step := Feed(0);
        }
      }
    } else {
      GotIsEverything(fetch, s);
    }
  }

  /** With nothing in flight, the collector has exactly what was fed. */
  lemma CollectedAll(s: State)
    requires Placed(s) && s.buffer == [] && forall w | 0 <= w < |s.fetchers| :: s.fetchers[w] == None
    ensures |s.got| == s.next
  {
    assert s.got.Keys == Upto(s.next);
    UptoSize(s.next);
    assert |s.got| == |s.got.Keys|;
  }

  lemma GotIsEverything(fetch: seq<Outcome>, s: State)
    requires s.next <= |fetch| && Placed(s) && |s.got| >= |fetch|
    ensures s.got.Keys == Upto(|fetch|)
  {
    UptoSize(|fetch|);
    assert s.got.Keys <= Upto(|fetch|);
    SubsetSize(s.got.Keys, Upto(|fetch|));
    assert |s.got| == |s.got.Keys|;
    if s.got.Keys != Upto(|fetch|) {
      var x :| x in Upto(|fetch|) && x !in s.got.Keys;
      SubsetSize(s.got.Keys, Upto(|fetch|) - {x});
    }
  }

  // ----- Which error is reported ------------------------------------------------------------

  /** The error the job reports: the first genuine one in document order; a context error
      only when nothing failed for a real reason. */
  method PickResolveError(n: nat, errors: map<nat, Outcome>) returns (picked: Option<Outcome>)
    ensures picked == Picked(n, errors)
    ensures picked.Some? && picked.value.Genuine? ==>
              exists i :: 0 <= i < n && i in errors && errors[i] == picked.value &&
                forall j | 0 <= j < i && j in errors :: !errors[j].Genuine?
  {
    var fallback: Option<Outcome> := None;
    var i := 0;
    while i < n
      invariant i <= n
      invariant forall j | 0 <= j < i && j in errors :: !errors[j].Genuine?
      invariant fallback.Some? ==> fallback.value.ContextError?
      invariant Picked(n, errors) == if FirstGenuine(i, n, errors).Some? then FirstGenuine(i, n, errors)
                                     else if fallback.Some? then fallback else FirstContext(i, n, errors)
    {
      if i in errors && IsError(errors[i]) {
        if errors[i].Genuine? { return Some(errors[i]); }
        if fallback == None { fallback := Some(errors[i]); }
      }
      i := i + 1;
    }
    picked := fallback;
  }

  function FirstGenuine(i: nat, n: nat, errors: map<nat, Outcome>): Option<Outcome>
    decreases n - i
  {
    if i >= n then None
    else if i in errors && errors[i].Genuine? then Some(errors[i])
    else FirstGenuine(i + 1, n, errors)
  }

  function FirstContext(i: nat, n: nat, errors: map<nat, Outcome>): Option<Outcome>
    decreases n - i
  {
    if i >= n then None
    else if i in errors && errors[i].ContextError? then Some(errors[i])
    else FirstContext(i + 1, n, errors)
  }

  function Picked(n: nat, errors: map<nat, Outcome>): Option<Outcome> {
    if FirstGenuine(0, n, errors).Some? then FirstGenuine(0, n, errors) else FirstContext(0, n, errors)
  }

  lemma {:induction false} FirstGenuineAt(i: nat, n: nat, errors: map<nat, Outcome>, first: nat)
    requires i <= first < n && first in errors && errors[first].Genuine?
    requires forall j | i <= j < first && j in errors :: !errors[j].Genuine?
    ensures FirstGenuine(i, n, errors) == Some(errors[first])
    decreases n - i
  {
    if i < first { FirstGenuineAt(i + 1, n, errors, first); }
  }

  /** Schedule independence: whatever the interleaving, when the first resolvent in document
      order that fails does so for a genuine reason, exactly its error is reported. */
  lemma ErrorIsDeterministic(fetch: seq<Outcome>, workers: nat, tr: seq<State>, steps: seq<Step>, first: nat)
    requires Run(fetch, workers, tr, steps) && FirstFailure(fetch, first)
    requires first < |fetch| && fetch[first].Genuine? && |tr[|steps|].got| >= |fetch|
    ensures Picked(|fetch|, tr[|steps|].got) == Some(fetch[first])
  {
    var s := tr[|steps|];
    RunsKeepInv(fetch, workers, tr, steps, first, |steps|);
    GotIsEverything(fetch, s);
    assert first in s.got;
    FirstGenuineAt(0, |fetch|, s.got, first);
  }

  /** The failing resolvent's own error is among what was collected. */
  lemma FirstIsCollected(fetch: seq<Outcome>, workers: nat, tr: seq<State>, steps: seq<Step>, first: nat)
    requires Run(fetch, workers, tr, steps) && FirstFailure(fetch, first)
    requires first < |fetch| && |tr[|steps|].got| >= |fetch|
    ensures first in tr[|steps|].got && tr[|steps|].got[first] == fetch[first] && HasError(tr[|steps|].got)
  {
    RunsKeepInv(fetch, workers, tr, steps, first, |steps|);
    GotIsEverything(fetch, tr[|steps|]);
    assert first in tr[|steps|].got.Keys;
  }

  /** And when every fetch succeeds, every series is collected and nothing is reported or skipped. */
  lemma SuccessIsDeterministic(fetch: seq<Outcome>, workers: nat, tr: seq<State>, steps: seq<Step>)
    requires Run(fetch, workers, tr, steps) && FirstFailure(fetch, |fetch|) && |tr[|steps|].got| >= |fetch|
    ensures tr[|steps|].closes == 0 && Faithful(fetch, tr[|steps|].got)
  {
    var s := tr[|steps|];
    RunsKeepInv(fetch, workers, tr, steps, |fetch|, |steps|);
    GotIsEverything(fetch, s);
    AllGood(fetch, s);
  }

  /** The collector holds exactly the outcome of every fetch. */
  ghost predicate Faithful(fetch: seq<Outcome>, got: map<nat, Outcome>) {
    got.Keys == Upto(|fetch|) && forall i | i in got :: got[i] == fetch[i]
  }

  lemma AllGood(fetch: seq<Outcome>, s: State)
    requires Truthful(fetch, s, |fetch|) && StopsOnce(s) && FirstFailure(fetch, |fetch|) && s.got.Keys == Upto(|fetch|)
    ensures s.closes == 0 && Faithful(fetch, s.got)
  {
    forall i | i in s.got ensures s.got[i] == fetch[i] && fetch[i].Body? { }
    assert !HasError(s.got);
  }

  lemma StopClosesAtMostOnce(fetch: seq<Outcome>, workers: nat, tr: seq<State>, steps: seq<Step>, i: nat)
    requires Run(fetch, workers, tr, steps) && i < |tr|
    ensures tr[i].closes <= 1
  {
    var first := FindFirstFailure(fetch);
    RunsKeepInv(fetch, workers, tr, steps, first, i);
  }
}
