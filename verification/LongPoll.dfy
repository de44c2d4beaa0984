/**
 Long polls against the hub, step by step: register, read the job, wait; on the other side commit
 the terminal state, take the waiters, close their channels one by one.
 */
module LongPoll {
  import opened Wrappers
  import opened LongPollHub

  /** Where a long poll stands in its loop. */
  datatype Phase =
    | Top
    | Registered(ch: nat)
    | Waiting(ch: nat)
    | Leaving(ch: nat, again: bool)
    | Returned

  datatype Poll = Poll(id: string, phase: Phase)

  /** A Notify that took its waiters and closes them in order. */
  datatype Closing = Closing(chans: seq<nat>, at: nat)

  /**
   The hub, the channels closed so far and the number made; Notify calls due or at work; the jobs
   that ended, and those among them that ended inside a claim, which notifies nobody.
   */
  datatype State = State(
    waiters: Waiters,
    closed: set<nat>,
    made: nat,
    due: map<nat, string>,
    closing: map<nat, Closing>,
    ended: set<string>,
    quiet: set<string>,
    polls: map<nat, Poll>)

  datatype Step =
    | Begin(k: nat, id: string)
    | Register(k: nat)
    | ReadJob(k: nat, ok: bool)
    | Wake(k: nat)
    | Fallback(k: nat)
    | GiveUp(k: nat)
    | Drop(k: nat)
    | End(n: nat, id: string)
    | EndQuietly(id: string)
    | Take(n: nat)
    | CloseNext(n: nat)

  predicate Enabled(s: State, x: Step) {
    match x
    case Begin(k, id) => k !in s.polls
    case Register(k) => k in s.polls && s.polls[k].phase.Top?
    case ReadJob(k, ok) => k in s.polls && s.polls[k].phase.Registered?
    case Wake(k) => k in s.polls && s.polls[k].phase.Waiting? && s.polls[k].phase.ch in s.closed
    case Fallback(k) => k in s.polls && s.polls[k].phase.Waiting?
    case GiveUp(k) => k in s.polls && s.polls[k].phase.Waiting?
    case Drop(k) => k in s.polls && s.polls[k].phase.Leaving?
    case End(n, id) => id !in s.ended && n !in s.due && n !in s.closing
    case EndQuietly(id) => id !in s.ended
    case Take(n) => n in s.due && n !in s.closing
    case CloseNext(n) => n in s.closing && s.closing[n].at < |s.closing[n].chans|
  }

  function Moved(s: State, k: nat, phase: Phase): State
    requires k in s.polls
  {
    s.(polls := s.polls[k := s.polls[k].(phase := phase)])
  }

  function Next(s: State, x: Step): State
    requires Enabled(s, x)
  {
    match x
    case Begin(k, id) => s.(polls := s.polls[k := Poll(id, Top)])
    case Register(k) =>
      Moved(s.(waiters := Added(s.waiters, s.polls[k].id, s.made), made := s.made + 1), k, Registered(s.made))
    case ReadJob(k, ok) =>
      Moved(s, k,
            if !ok || s.polls[k].id in s.ended then Leaving(s.polls[k].phase.ch, false)
            else Waiting(s.polls[k].phase.ch))
    case Wake(k) => Moved(s, k, Leaving(s.polls[k].phase.ch, true))
    case Fallback(k) => Moved(s, k, Leaving(s.polls[k].phase.ch, true))
    case GiveUp(k) => Moved(s, k, Leaving(s.polls[k].phase.ch, false))
    case Drop(k) =>
      Moved(s.(waiters := Dropped(s.waiters, s.polls[k].id, s.polls[k].phase.ch)), k,
            if s.polls[k].phase.again then Top else Returned)
    case End(n, id) => s.(ended := s.ended + {id}, due := s.due[n := id])
    case EndQuietly(id) => s.(ended := s.ended + {id}, quiet := s.quiet + {id})
    case Take(n) =>
      s.(waiters := s.waiters - {s.due[n]}, due := s.due - {n},
         closing := s.closing[n := Closing(Of(s.waiters, s.due[n]), 0)])
    case CloseNext(n) =>
      var c := s.closing[n];
      s.(closed := s.closed + {c.chans[c.at]}, closing := s.closing[n := c.(at := c.at + 1)])
  }

  // ----- What always holds -----------------------------------------------------------------------------

  /** Notify n still has to close ch, which stands at position i. */
  predicate Flies(s: State, n: nat, i: nat, ch: nat) {
    n in s.closing && s.closing[n].at <= i < |s.closing[n].chans| && s.closing[n].chans[i] == ch
  }

  ghost predicate InFlight(s: State, ch: nat) {
    exists n: nat, i: nat :: Flies(s, n, i, ch)
  }

  /** A channel is registered at most once, about to be closed at most once, or closed: never two of these. */
  ghost predicate ChannelsOk(s: State) {
    && Tidy(s.waiters) && (forall c | c in s.closed :: c < s.made)
    && (forall id, c: nat | In(s.waiters, id, c) :: c < s.made && c !in s.closed && !InFlight(s, c))
    && (forall n: nat, i: nat, c: nat | Flies(s, n, i, c) :: c < s.made && c !in s.closed)
    && forall n: nat, i: nat, m: nat, k: nat, c: nat | Flies(s, n, i, c) && Flies(s, m, k, c) :: n == m && i == k
  }

  predicate Holds(p: Poll, ch: nat) {
    match p.phase
    case Registered(c) => c == ch
    case Waiting(c) => c == ch
    case Leaving(c, _) => c == ch
    case _ => false
  }

  /** A Notify for this job is still to take its waiters. */
  ghost predicate NotifyDue(s: State, id: string) {
    exists n :: n in s.due && s.due[n] == id
  }

  /** The channel a poll holds is registered, about to be closed or closed. */
  ghost predicate Reachable(s: State, id: string, ch: nat) {
    In(s.waiters, id, ch) || InFlight(s, ch) || ch in s.closed
  }

  ghost predicate PollOk(s: State, p: Poll) {
    && (p.phase.Registered? ==> Reachable(s, p.id, p.phase.ch))
    && (p.phase.Waiting? ==> Reachable(s, p.id, p.phase.ch))
    && (p.phase.Waiting? && p.id in s.ended && p.id !in s.quiet ==>
          NotifyDue(s, p.id) || InFlight(s, p.phase.ch) || p.phase.ch in s.closed)
    && forall c: nat | Holds(p, c) :: c < s.made
  }

  ghost predicate PollsOk(s: State) {
    && (forall k | k in s.polls :: PollOk(s, s.polls[k]))
    && forall j, k, c: nat | j in s.polls && k in s.polls && Holds(s.polls[j], c) && Holds(s.polls[k], c) :: j == k
  }

  /** Every registered channel belongs to a poll that will drop it. */
  ghost predicate Owned(s: State, id: string, ch: nat) {
    exists k :: k in s.polls && s.polls[k].id == id && Holds(s.polls[k], ch)
  }

  ghost predicate AllOwned(s: State) {
    forall id, c: nat | In(s.waiters, id, c) :: Owned(s, id, c)
  }

  ghost predicate Inv(s: State) {
    ChannelsOk(s) && PollsOk(s) && AllOwned(s)
  }

  predicate Start(s: State) {
    s.waiters == map[] && s.closed == {} && s.due == map[] && s.closing == map[]
    && s.ended == {} && s.quiet == {} && s.polls == map[]
  }

  // ----- Every step keeps it --------------------------------------------------------------------------------

  /** A poll moves on holding the channel it held, or none. */
  lemma MoveKeepsInv(s: State, k: nat, phase: Phase)
    requires Inv(s) && k in s.polls
    requires forall c: nat | Holds(s.polls[k].(phase := phase), c) :: Holds(s.polls[k], c)
    requires forall c: nat | Holds(s.polls[k], c) ::
               Holds(s.polls[k].(phase := phase), c) || !In(s.waiters, s.polls[k].id, c)
    requires PollOk(s, s.polls[k].(phase := phase))
    ensures Inv(Moved(s, k, phase))
  {
    var s' := Moved(s, k, phase);
    FlightSame(s, s');
    forall j | j in s'.polls
      ensures PollOk(s', s'.polls[j])
    {
      assert PollOk(s, if j == k then s'.polls[k] else s.polls[j]);
    }
    forall id, c: nat | In(s'.waiters, id, c) ensures Owned(s', id, c) {
      assert Owned(s, id, c);
      var j :| j in s.polls && s.polls[j].id == id && Holds(s.polls[j], c);
      assert s'.polls[j].id == id && Holds(s'.polls[j], c);
    }
  }

  lemma FlightSame(s: State, s': State)
    requires s'.closing == s.closing
    ensures forall c :: InFlight(s', c) <==> InFlight(s, c)
    ensures forall n: nat, i: nat, c: nat :: Flies(s', n, i, c) <==> Flies(s, n, i, c)
  {
    forall c ensures InFlight(s', c) <==> InFlight(s, c) {
      if InFlight(s, c) { var n: nat, i: nat :| Flies(s, n, i, c); assert Flies(s', n, i, c); }
      if InFlight(s', c) { var n: nat, i: nat :| Flies(s', n, i, c); assert Flies(s, n, i, c); }
    }
  }

  lemma BeginKeepsInv(s: State, k: nat, id: string)
    requires Inv(s) && k !in s.polls
    ensures Inv(Next(s, Begin(k, id)))
  {
    var s' := Next(s, Begin(k, id));
    FlightSame(s, s');
    forall j | j in s'.polls ensures PollOk(s', s'.polls[j]) { assert j in s.polls ==> PollOk(s, s.polls[j]); }
    forall i, c: nat | In(s'.waiters, i, c) ensures Owned(s', i, c) {
      assert Owned(s, i, c);
      var j :| j in s.polls && s.polls[j].id == i && Holds(s.polls[j], c);
      assert s'.polls[j].id == i && Holds(s'.polls[j], c);
    }
  }

  lemma RegisterKeepsInv(s: State, k: nat)
    requires Inv(s) && Enabled(s, Register(k))
    ensures Inv(Next(s, Register(k)))
  {
    var s', id := Next(s, Register(k)), s.polls[k].id;
    FlightSame(s, s');
    AddedIn(s.waiters, id, s.made);
    AddedIsTidy(s.waiters, id, s.made);
    assert !InFlight(s, s.made) by { assert forall n, i :: !Flies(s, n, i, s.made); }
    forall j | j in s'.polls ensures PollOk(s', s'.polls[j]) { assert PollOk(s, s.polls[j]); }
    forall i, c: nat | In(s'.waiters, i, c) ensures Owned(s', i, c) {
      if In(s.waiters, i, c) {
        assert Owned(s, i, c);
        var j :| j in s.polls && s.polls[j].id == i && Holds(s.polls[j], c);
        assert s'.polls[j].id == i && Holds(s'.polls[j], c);
      } else {
        assert Holds(s'.polls[k], c);
      }
    }
  }

  lemma DropKeepsInv(s: State, k: nat)
    requires Inv(s) && Enabled(s, Drop(k))
    ensures Inv(Next(s, Drop(k)))
  {
    var p := s.polls[k];
    var r := s.(waiters := Dropped(s.waiters, p.id, p.phase.ch));
    DroppedIn(s.waiters, p.id, p.phase.ch);
    DroppedIsTidy(s.waiters, p.id, p.phase.ch);
    FlightSame(s, r);
    assert Holds(p, p.phase.ch);
    forall j | j in r.polls ensures PollOk(r, r.polls[j]) {
      assert PollOk(s, s.polls[j]);
      OthersKept(s, k, j);
    }
    forall id, c: nat | In(r.waiters, id, c) ensures Owned(r, id, c) {
      assert Owned(s, id, c);
      var j :| j in s.polls && s.polls[j].id == id && Holds(s.polls[j], c);
      assert r.polls[j].id == id && Holds(r.polls[j], c);
    }
    MoveKeepsInv(r, k, if p.phase.again then Top else Returned);
  }

  /** Another poll holds another channel. */
  lemma OthersKept(s: State, k: nat, j: nat)
    requires PollsOk(s) && k in s.polls && s.polls[k].phase.Leaving? && j in s.polls
    ensures s.polls[j].phase.Registered? || s.polls[j].phase.Waiting? ==> s.polls[j].phase.ch != s.polls[k].phase.ch
  {
    var ch := s.polls[k].phase.ch;
    assert Holds(s.polls[k], ch);
    if (s.polls[j].phase.Registered? || s.polls[j].phase.Waiting?) && s.polls[j].phase.ch == ch {
      assert Holds(s.polls[j], ch);
    }
  }

  lemma EndKeepsInv(s: State, n: nat, id: string)
    requires Inv(s) && Enabled(s, End(n, id))
    ensures Inv(Next(s, End(n, id)))
  {
    var s' := Next(s, End(n, id));
    FlightSame(s, s');
    assert NotifyDue(s', id) by { assert s'.due[n] == id; }
    forall j | j in s'.polls ensures PollOk(s', s'.polls[j]) {
      assert PollOk(s, s.polls[j]);
      StillDue(s, s', s.polls[j].id);
    }
    OwnersSame(s, s');
  }

  lemma StillDue(s: State, s': State, id: string)
    requires forall n | n in s.due :: n in s'.due && s'.due[n] == s.due[n]
    ensures NotifyDue(s, id) ==> NotifyDue(s', id)
  {
    if NotifyDue(s, id) {
      var n :| n in s.due && s.due[n] == id;
      assert s'.due[n] == id;
    }
  }

  lemma OwnersSame(s: State, s': State)
    requires AllOwned(s) && s'.polls == s.polls && forall id, c: nat | In(s'.waiters, id, c) :: In(s.waiters, id, c)
    ensures AllOwned(s')
  {
    forall id, c: nat | In(s'.waiters, id, c) ensures Owned(s', id, c) {
      assert Owned(s, id, c);
      var j :| j in s.polls && s.polls[j].id == id && Holds(s.polls[j], c);
      assert s'.polls[j].id == id && Holds(s'.polls[j], c);
    }
  }

  lemma EndQuietlyKeepsInv(s: State, id: string)
    requires Inv(s) && Enabled(s, EndQuietly(id))
    ensures Inv(Next(s, EndQuietly(id)))
  {
    var s' := Next(s, EndQuietly(id));
    FlightSame(s, s');
    forall j | j in s'.polls ensures PollOk(s', s'.polls[j]) {
      assert PollOk(s, s.polls[j]);
      StillDue(s, s', s.polls[j].id);
    }
    OwnersSame(s, s');
  }

  /** Taking the waiters puts exactly them in flight. */
  lemma TakeFlies(s: State, n: nat)
    requires Inv(s) && Enabled(s, Take(n))
    ensures var s' := Next(s, Take(n));
            && (forall m: nat, i: nat, c: nat :: Flies(s', m, i, c) ==>
                  (&& m == n && i < |Of(s.waiters, s.due[n])| && c == Of(s.waiters, s.due[n])[i]
                   && In(s.waiters, s.due[n], c)) ||
                  (m != n && Flies(s, m, i, c)))
            && (forall c :: InFlight(s, c) ==> InFlight(s', c))
            && (forall c: nat :: In(s.waiters, s.due[n], c) ==> InFlight(s', c))
  {
    var s', chans := Next(s, Take(n)), Of(s.waiters, s.due[n]);
    forall c | InFlight(s, c) ensures InFlight(s', c) {
      var m: nat, i: nat :| Flies(s, m, i, c);
      assert Flies(s', m, i, c);
    }
    forall c: nat | In(s.waiters, s.due[n], c) ensures InFlight(s', c) {
      var i :| 0 <= i < |chans| && chans[i] == c;
      assert Flies(s', n, i, c);
    }
  }

  lemma TakeKeepsChannels(s: State, n: nat)
    requires Inv(s) && Enabled(s, Take(n))
    ensures ChannelsOk(Next(s, Take(n)))
  {
    var s', id := Next(s, Take(n)), s.due[n];
    var chans := Of(s.waiters, id);
    RemovedIsTidy(s.waiters, id);
    TakeFlies(s, n);
    forall i, c: nat | In(s'.waiters, i, c) ensures c < s'.made && c !in s'.closed && !InFlight(s', c) {
      assert In(s.waiters, i, c) && i != id && !InFlight(s, c) && !In(s.waiters, id, c);
      forall m, k ensures !Flies(s', m, k, c) { assert !Flies(s, m, k, c); }
    }
    assert Distinct(chans);
    forall m: nat, i: nat, m': nat, i': nat, c: nat | Flies(s', m, i, c) && Flies(s', m', i', c)
      ensures m == m' && i == i'
    {
      FliesIs(s, m, i, c);
      FliesIs(s, m', i', c);
      NotBoth(s, id, c);
    }
  }

  lemma FliesIs(s: State, n: nat, i: nat, c: nat)
    ensures Flies(s, n, i, c) ==> InFlight(s, c)
  {
  }

  lemma NotBoth(s: State, id: string, c: nat)
    requires ChannelsOk(s)
    ensures !(In(s.waiters, id, c) && InFlight(s, c))
  {
  }

  lemma TakeKeepsInv(s: State, n: nat)
    requires Inv(s) && Enabled(s, Take(n))
    ensures Inv(Next(s, Take(n)))
  {
    var s', id := Next(s, Take(n)), s.due[n];
    TakeKeepsChannels(s, n);
    TakeFlies(s, n);
    RemovedIsTidy(s.waiters, id);
    forall j | j in s'.polls ensures PollOk(s', s'.polls[j]) {
      assert PollOk(s, s.polls[j]);
      if NotifyDue(s, s.polls[j].id) && s.polls[j].id != id {
        var m :| m in s.due && s.due[m] == s.polls[j].id;
        assert m in s'.due && s'.due[m] == s.polls[j].id;
      }
    }
    OwnersSame(s, s');
  }

  lemma CloseFlies(s: State, n: nat)
    requires Enabled(s, CloseNext(n))
    ensures var s', ch := Next(s, CloseNext(n)), s.closing[n].chans[s.closing[n].at];
            && (forall m: nat, i: nat, c: nat :: Flies(s', m, i, c) <==>
                  Flies(s, m, i, c) && !(m == n && i == s.closing[n].at))
            && Flies(s, n, s.closing[n].at, ch)
            && (forall c | InFlight(s, c) :: c == ch || InFlight(s', c))
            && (forall c | InFlight(s', c) :: InFlight(s, c))
  {
    var s', ch := Next(s, CloseNext(n)), s.closing[n].chans[s.closing[n].at];
    forall c | InFlight(s, c) ensures c == ch || InFlight(s', c) {
      var m: nat, i: nat :| Flies(s, m, i, c);
      assert c == ch || Flies(s', m, i, c);
    }
    forall c | InFlight(s', c) ensures InFlight(s, c) {
      var m: nat, i: nat :| Flies(s', m, i, c);
      assert Flies(s, m, i, c);
    }
  }

  /** Closing the next channel: it was open. */
  lemma CloseKeepsInv(s: State, n: nat)
    requires Inv(s) && Enabled(s, CloseNext(n))
    ensures Inv(Next(s, CloseNext(n))) && s.closing[n].chans[s.closing[n].at] !in s.closed
  {
    var s', ch := Next(s, CloseNext(n)), s.closing[n].chans[s.closing[n].at];
    CloseFlies(s, n);
    assert InFlight(s, ch);
    forall m: nat, i: nat, c: nat | Flies(s', m, i, c) ensures c < s'.made && c !in s'.closed {
      assert Flies(s, m, i, c);
      assert c != ch;
    }
    forall j | j in s'.polls ensures PollOk(s', s'.polls[j]) {
      assert PollOk(s, s.polls[j]);
      StillDue(s, s', s.polls[j].id);
    }
    OwnersSame(s, s');
  }

  lemma StepKeepsInv(s: State, x: Step)
    requires Inv(s) && Enabled(s, x)
    ensures Inv(Next(s, x))
  {
    match x
    case Begin(k, id) => BeginKeepsInv(s, k, id);
    case Register(k) => RegisterKeepsInv(s, k);
    case ReadJob(k, ok) => { assert PollOk(s, s.polls[k]); MoveOn(s, x, k); }
    case Wake(k) => { assert PollOk(s, s.polls[k]); MoveOn(s, x, k); }
    case Fallback(k) => { assert PollOk(s, s.polls[k]); MoveOn(s, x, k); }
    case GiveUp(k) => { assert PollOk(s, s.polls[k]); MoveOn(s, x, k); }
    case Drop(k) => DropKeepsInv(s, k);
    case End(n, id) => EndKeepsInv(s, n, id);
    case EndQuietly(id) => EndQuietlyKeepsInv(s, id);
    case Take(n) => TakeKeepsInv(s, n);
    case CloseNext(n) => CloseKeepsInv(s, n);
  }

  lemma MoveOn(s: State, x: Step, k: nat)
    requires Inv(s) && Enabled(s, x) && k in s.polls && PollOk(s, s.polls[k])
    requires x == GiveUp(k) || x == Fallback(k) || x == Wake(k) || (x.ReadJob? && x.k == k)
    ensures Inv(Next(s, x))
  {
    assert Holds(s.polls[k], s.polls[k].phase.ch);
    MoveKeepsInv(s, k, Next(s, x).polls[k].phase);
  }

  // ----- Whole runs --------------------------------------------------------------------------------------

  ghost predicate Run(states: seq<State>, steps: seq<Step>) {
    && |states| == |steps| + 1
    && forall i | 0 <= i < |steps| :: Takes(states[i], steps[i], states[i + 1])
  }

  ghost predicate Takes(s: State, x: Step, s': State) {
    Enabled(s, x) && s' == Next(s, x)
  }

  lemma {:induction false} RunsKeepInv(states: seq<State>, steps: seq<Step>, n: nat)
    requires Run(states, steps) && Start(states[0]) && n < |states|
    ensures Inv(states[n])
  {
    if n > 0 {
      RunsKeepInv(states, steps, n - 1);
      assert Takes(states[n - 1], steps[n - 1], states[n]);
      StepKeepsInv(states[n - 1], steps[n - 1]);
    }
  }

  /** No lost wake-up: once every Notify is through, a poll waiting on a job that ended with one can wake. */
  lemma NoLostWakeUp(states: seq<State>, steps: seq<Step>, n: nat, k: nat)
    requires Run(states, steps) && Start(states[0]) && n < |states| && k in states[n].polls
    requires var s, p := states[n], states[n].polls[k]; p.phase.Waiting? && p.id in s.ended && p.id !in s.quiet
    requires var s := states[n]; s.due == map[] && forall m | m in s.closing :: s.closing[m].at >= |s.closing[m].chans|
    ensures Enabled(states[n], Wake(k))
  {
    RunsKeepInv(states, steps, n);
    var s := states[n];
    assert PollOk(s, s.polls[k]);
    NothingFlies(s);
  }

  lemma NothingFlies(s: State)
    requires forall m | m in s.closing :: s.closing[m].at >= |s.closing[m].chans|
    ensures forall c: nat :: !InFlight(s, c)
  {
  }

  /** A poll that read a non-terminal state has its channel registered, about to be closed or closed. */
  lemma WaitingIsReachable(states: seq<State>, steps: seq<Step>, n: nat, k: nat)
    requires Run(states, steps) && Start(states[0]) && n < |states|
             && k in states[n].polls && states[n].polls[k].phase.Waiting?
    ensures Reachable(states[n], states[n].polls[k].id, states[n].polls[k].phase.ch)
  {
    RunsKeepInv(states, steps, n);
    assert PollOk(states[n], states[n].polls[k]);
  }

  /** No channel is closed twice. */
  lemma NoDoubleClose(states: seq<State>, steps: seq<Step>, n: nat)
    requires Run(states, steps) && Start(states[0]) && n < |steps| && steps[n].CloseNext?
    ensures Enabled(states[n], steps[n]) && var c := states[n].closing[steps[n].n]; c.chans[c.at] !in states[n].closed
  {
    RunsKeepInv(states, steps, n);
    assert Takes(states[n], steps[n], states[n + 1]);
    CloseKeepsInv(states[n], steps[n].n);
  }

  /** Once all long polls returned, no waiter is registered. */
  lemma NobodyLeft(states: seq<State>, steps: seq<Step>, n: nat)
    requires Run(states, steps) && Start(states[0]) && n < |states|
    requires forall k | k in states[n].polls :: states[n].polls[k].phase.Returned?
    ensures states[n].waiters == map[]
  {
    RunsKeepInv(states, steps, n);
    var s := states[n];
    assert forall id, c: nat :: !Owned(s, id, c);
    forall id ensures id !in s.waiters { FirstIsIn(s.waiters, id); }
  }

  lemma FirstIsIn(w: Waiters, id: string)
    requires Tidy(w)
    ensures id in w ==> In(w, id, w[id][0])
  {
  }

  /** A job that ends inside a claim leaves its polls to their ticker: nobody notifies them. */
  lemma QuietEndWakesNobody(s: State, id: string, k: nat)
    requires Enabled(s, EndQuietly(id)) && k in s.polls && s.polls[k].id == id && s.polls[k].phase.Waiting?
    requires s.polls[k].phase.ch !in s.closed && !NotifyDue(s, id)
    ensures var s' := Next(s, EndQuietly(id));
            id in s'.ended && !NotifyDue(s', id) && !Enabled(s', Wake(k)) && Enabled(s', Fallback(k))
  {
    StillDue(Next(s, EndQuietly(id)), s, id);
  }
}
