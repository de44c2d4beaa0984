/** The long-poll hub: channels registered per job, closed and forgotten by Notify, dropped by Forget. */
module LongPollHub {
  import opened Wrappers

  type Waiters = map<string, seq<nat>>

  /** The channel is registered for the job. */
  predicate In(w: Waiters, id: string, ch: nat) {
    id in w && ch in w[id]
  }

  predicate Distinct(s: seq<nat>) {
    forall i, k | 0 <= i < k < |s| :: s[i] != s[k]
  }

  /** Channels of a job; none when it has no entry. */
  function Of(w: Waiters, id: string): seq<nat> {
    if id in w then w[id] else []
  }

  function Without(s: seq<nat>, ch: nat): (t: seq<nat>)
    ensures forall c :: c in t <==> c in s && c != ch
  {
    if s == [] then []
    else
      var t := Without(s[..|s| - 1], ch);
      if s[|s| - 1] == ch then t else t + [s[|s| - 1]]
  }

  lemma {:induction false} WithoutDistinct(s: seq<nat>, ch: nat)
    requires Distinct(s)
    ensures Distinct(Without(s, ch))
  {
    if s != [] {
      var n := |s| - 1;
      WithoutDistinct(s[..n], ch);
      assert s[n] !in s[..n];
    }
  }

  function Added(w: Waiters, id: string, ch: nat): Waiters {
    w[id := Of(w, id) + [ch]]
  }

  function Dropped(w: Waiters, id: string, ch: nat): Waiters {
    var rest := Without(Of(w, id), ch);
    if rest == [] then w - {id} else w[id := rest]
  }

  lemma AddedIn(w: Waiters, id: string, ch: nat)
    ensures forall i, c: nat :: In(Added(w, id, ch), i, c) <==> In(w, i, c) || (i == id && c == ch)
  {
    assert forall c :: c in Added(w, id, ch)[id] <==> c in Of(w, id) || c == ch;
  }

  lemma DroppedIn(w: Waiters, id: string, ch: nat)
    ensures forall i, c: nat :: In(Dropped(w, id, ch), i, c) <==> In(w, i, c) && !(i == id && c == ch)
  {
    var rest := Without(Of(w, id), ch);
    assert forall c :: c in rest <==> c in Of(w, id) && c != ch;
  }

  /** No job has an empty entry, no channel stands twice. */
  ghost predicate Tidy(w: Waiters) {
    && (forall id | id in w :: w[id] != [] && Distinct(w[id]))
    && forall i, k, c: nat | In(w, i, c) && In(w, k, c) :: i == k
  }

  lemma AddedIsTidy(w: Waiters, id: string, ch: nat)
    requires Tidy(w) && forall i :: !In(w, i, ch)
    ensures Tidy(Added(w, id, ch))
  {
    AddedIn(w, id, ch);
    assert !In(w, id, ch);
    assert Distinct(Of(w, id) + [ch]);
  }

  lemma DroppedIsTidy(w: Waiters, id: string, ch: nat)
    requires Tidy(w)
    ensures Tidy(Dropped(w, id, ch))
  {
    DroppedIn(w, id, ch);
    WithoutDistinct(Of(w, id), ch);
  }

  lemma RemovedIsTidy(w: Waiters, id: string)
    requires Tidy(w)
    ensures Tidy(w - {id}) && forall i, c: nat :: In(w - {id}, i, c) <==> In(w, i, c) && i != id
  {
    assert forall i, c: nat :: In(w - {id}, i, c) <==> In(w, i, c) && i != id;
  }

  // ----- The object ----------------------------------------------------------------------------------

  /** The hub and its channels, numbered as they are made. */
  class Hub {
    var waiters: Waiters
    var closed: set<nat>
    var made: nat
    var flag: bool

    ghost predicate Valid()
      reads this
    {
      && Tidy(waiters)
      && (forall id, c: nat | In(waiters, id, c) :: c < made && c !in closed)
      && forall c | c in closed :: c < made
    }

    constructor ()
      ensures Valid() && waiters == map[] && closed == {} && made == 0 && !flag
    {
      waiters, closed, made, flag := map[], {}, 0, false;
    }

    /** Wait: a new open channel, registered. */
    method Wait(id: string) returns (ch: nat)
      requires Valid()
      modifies this
      ensures Valid() && ch == old(made) && made == ch + 1 && closed == old(closed) && flag == old(flag)
      ensures forall i, c: nat :: In(waiters, i, c) <==> In(old(waiters), i, c) || (i == id && c == ch)
    {
      ch := made;
      made := made + 1;
      AddedIn(waiters, id, ch);
      AddedIsTidy(waiters, id, ch);
      waiters := Added(waiters, id, ch);
    }

    /** close: closing a closed channel would panic. */
    method Close(ch: nat)
      requires ch !in closed
      modifies this
      ensures closed == old(closed) + {ch} && waiters == old(waiters) && made == old(made) && flag == old(flag)
    {
      closed := closed + {ch};
    }

    /** Notify: every waiter of the job is woken and forgotten, nobody else is; each channel is closed once. */
    method Notify(id: string)
      requires Valid()
      modifies this
      ensures Valid() && made == old(made) && flag
      ensures forall i, c: nat :: In(waiters, i, c) <==> In(old(waiters), i, c) && i != id
      ensures forall c :: c in closed <==> c in old(closed) || In(old(waiters), id, c)
    {
      var chans := Of(waiters, id);
      ghost var before := closed;
      RemovedIsTidy(waiters, id);
      waiters := waiters - {id};
      for i := 0 to |chans|
        invariant waiters == old(waiters) - {id} && made == old(made)
        invariant forall c :: c in closed <==> c in before || c in chans[..i]
      {
        assert chans[i] in chans && In(old(waiters), id, chans[i]);
        assert chans[i] !in chans[..i];
        Close(chans[i]);
        assert chans[..i + 1] == chans[..i] + [chans[i]];
      }
      assert chans[..|chans|] == chans;
      assert forall c: nat | c in chans :: In(old(waiters), id, c);
      flag := true;
    }

    /** Forget: that one waiter is dropped, and the entry with it when it was the last. */
    method Forget(id: string, ch: nat)
      requires Valid()
      modifies this
      ensures Valid() && closed == old(closed) && made == old(made) && flag == old(flag)
      ensures waiters == Dropped(old(waiters), id, ch)
      ensures forall i, c: nat :: In(waiters, i, c) <==> In(old(waiters), i, c) && !(i == id && c == ch)
    {
      DroppedIn(waiters, id, ch);
      var chans := Of(waiters, id);
      var remaining: seq<nat> := [];
      for i := 0 to |chans|
        invariant remaining == Without(chans[..i], ch)
      {
        assert chans[..i + 1][..i] == chans[..i];
        if chans[i] != ch { remaining := remaining + [chans[i]]; }
      }
      assert chans[..|chans|] == chans;
      if remaining == [] {
        waiters := waiters - {id};
      } else {
        waiters := waiters[id := remaining];
      }
      DroppedIsTidy(old(waiters), id, ch);
    }

    /** Pending: zero exactly when nobody is registered. */
    method Pending() returns (n: nat)
      requires Valid()
      ensures n == 0 <==> waiters == map[]
      ensures n == Total(waiters, waiters.Keys)
    {
      n := 0;
      var left, seen := waiters.Keys, {};
      while left != {}
        invariant left !! seen && left + seen == waiters.Keys && n == Total(waiters, seen) && (n == 0 <==> seen == {})
        decreases left
      {
        var id :| id in left;
        TotalNext(waiters, seen, id);
        n := n + |waiters[id]|;
        left, seen := left - {id}, seen + {id};
      }
      assert seen == waiters.Keys;
    }
  }

  /** How many channels the given jobs have together. */
  ghost function Total(w: Waiters, ids: set<string>): nat
    requires ids <= w.Keys
  {
    if ids == {} then 0
    else
      var id :| id in ids;
      Total(w, ids - {id}) + |w[id]|
  }

  lemma {:induction false} TotalNext(w: Waiters, ids: set<string>, id: string)
    requires ids <= w.Keys && id in w && id !in ids
    ensures Total(w, ids + {id}) == Total(w, ids) + |w[id]|
    decreases ids
  {
    var all := ids + {id};
    var pick :| pick in all && Total(w, all) == Total(w, all - {pick}) + |w[pick]|;
    if pick == id {
      assert all - {id} == ids;
    } else {
      var rest := ids - {pick};
      TotalNext(w, rest, id);
      TotalNext(w, rest, pick);
      assert all - {pick} == rest + {id} && rest + {pick} == ids;
    }
  }
}
