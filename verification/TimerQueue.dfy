/**
  Timers of an event loop: one index sorted by expiration, one by identity, and a timerfd
  armed for the earliest.  A timer is known by its sequence number, which is never reused.

  cancelInLoop is modelled as it is written: a timer found in the active set is erased from
  the sorted set only, so the two sets part and the assertion that ends it fails.  A method
  that can fail an assertion reports it in `ok`.
 */
module TimerQueue {
  import opened Basics

  type Id = nat

  datatype Entry = Entry(when: int, id: Id)

  /** `delta` is the interval in microseconds. */
  datatype Timer = Timer(expiration: int, repeat: bool, delta: nat)

  /** What a timer callback may do to the queue. */
  datatype Call = Add(when: int, repeat: bool, delta: nat) | Cancel(id: Id)

  datatype Event = Do(call: Call) | Fire(now: int, calls: seq<Call>)

  // ---- what the calls mean ----

  /** The timers to come and the next sequence number. */
  datatype View = View(live: map<Id, Timer>, next: nat)

  const EMPTY := View(map[], 1)

  /** One call, None where it cancels an active timer; any other cancel leaves no trace here. */
  function Called(v: View, c: Call): Option<View> {
    match c
    case Add(when, repeat, delta) => Some(View(v.live[v.next := Timer(when, repeat, delta)], v.next + 1))
    case Cancel(id) => if id in v.live then None else Some(v)
  }

  function CalledAll(v: View, calls: seq<Call>): Option<View> {
    if calls == [] then Some(v)
    else
      match CalledAll(v, calls[..|calls| - 1])
      case None => None
      case Some(w) => Called(w, calls[|calls| - 1])
  }

  function Due(live: map<Id, Timer>, now: int): set<Id> { set id | id in live && live[id].expiration <= now }

  /** The timers of `ids` that repeat and are not cancelled, one interval from now. */
  function Restarted(was: map<Id, Timer>, ids: set<Id>, cancelled: set<Id>, now: int): map<Id, Timer> {
    map id | id in ids && id in was && was[id].repeat && id !in cancelled ::
      was[id].(expiration := now + was[id].delta)
  }

  function Cancels(calls: seq<Call>): set<Id> { set c | c in calls && c.Cancel? :: c.id }

  /** The timerfd goes off: the timers due run, and what they do to the queue is `calls`. */
  function Fired(v: View, now: int, calls: seq<Call>): Option<View> {
    var due := Due(v.live, now);
    match CalledAll(v.(live := v.live - due), calls)
    case None => None
    case Some(w) => Some(w.(live := w.live + Restarted(v.live, due, Cancels(calls), now)))
  }

  function Step(v: View, e: Event): Option<View> {
    match e
    case Do(call) => Called(v, call)
    case Fire(now, calls) => Fired(v, now, calls)
  }

  /** The timers after a run, None if an assertion failed on the way. */
  function StateAfter(events: seq<Event>): Option<View> {
    if events == [] then Some(EMPTY)
    else
      match StateAfter(events[..|events| - 1])
      case None => None
      case Some(v) => Step(v, events[|events| - 1])
  }

  ghost predicate Numbered(v: View) { forall id | id in v.live :: id < v.next }

  function Adds(calls: seq<Call>): nat {
    if calls == [] then 0 else Adds(calls[..|calls| - 1]) + if calls[|calls| - 1].Add? then 1 else 0
  }

  /** The i-th call cancels a timer that is active then: one there before, or added since. */
  ghost predicate CancelsActive(v: View, calls: seq<Call>, i: nat) {
    && i < |calls| && calls[i].Cancel?
    && (calls[i].id in v.live || v.next <= calls[i].id < v.next + Adds(calls[..i]))
  }

  /** What a sequence of calls leaves: the timers there before are untouched, and each Add makes
      one with the next number. */
  lemma {:induction false} CallsKeep(v: View, calls: seq<Call>)
    requires Numbered(v) && CalledAll(v, calls).Some?
    ensures var w := CalledAll(v, calls).value;
            && w.next == v.next + Adds(calls) && Numbered(w)
            && (forall id: Id :: id in w.live <==> id in v.live || v.next <= id < w.next)
            && (forall id | id in v.live :: w.live[id] == v.live[id])
  {
    if calls != [] { CallsKeep(v, calls[..|calls| - 1]); }
  }

  /** Calls fail exactly when one of them cancels a timer active at that moment. */
  lemma {:induction false} CallsFailIff(v: View, calls: seq<Call>)
    requires Numbered(v)
    ensures CalledAll(v, calls).None? <==> exists i: nat :: CancelsActive(v, calls, i)
  {
    if calls != [] {
      var last := |calls| - 1;
      var before := calls[..last];
      CallsFailIff(v, before);
      forall i: nat
        ensures CancelsActive(v, calls, i) <==>
                  CancelsActive(v, before, i) || (i == last && CancelsActive(v, calls, last))
      {
        if i < last { assert before[..i] == calls[..i]; }
      }
      if CalledAll(v, before).None? {
        var i: nat :| CancelsActive(v, before, i);
        assert CancelsActive(v, calls, i);
      } else {
        CallsKeep(v, before);
        assert CancelsActive(v, calls, last) <==> Called(CalledAll(v, before).value, calls[last]).None?;
      }
    }
  }

  /** An event fails exactly when it cancels a timer active at that moment. */
  ghost predicate Fails(v: View, e: Event) {
    match e
    case Do(call) => call.Cancel? && call.id in v.live
    case Fire(now, calls) => exists i: nat :: CancelsActive(v.(live := v.live - Due(v.live, now)), calls, i)
  }

  lemma StepNumbered(v: View, e: Event)
    requires Numbered(v)
    ensures Step(v, e).None? <==> Fails(v, e)
    ensures Step(v, e).Some? ==> Numbered(Step(v, e).value)
  {
    if e.Fire? {
      var w := v.(live := v.live - Due(v.live, e.now));
      CallsFailIff(w, e.calls);
      if CalledAll(w, e.calls).Some? { CallsKeep(w, e.calls); }
    }
  }

  lemma {:induction false} RunNumbered(events: seq<Event>)
    ensures StateAfter(events).Some? ==> Numbered(StateAfter(events).value)
  {
    hide Step, Fails;
    if events != [] {
      RunNumbered(events[..|events| - 1]);
      if StateAfter(events[..|events| - 1]).Some? {
        StepNumbered(StateAfter(events[..|events| - 1]).value, events[|events| - 1]);
      }
    }
  }

  ghost predicate FailsAt(events: seq<Event>, i: nat) {
    i < |events| && StateAfter(events[..i]).Some? && Fails(StateAfter(events[..i]).value, events[i])
  }

  /** A run breaks off exactly where an active timer is cancelled. */
  lemma {:induction false} BreaksOffIff(events: seq<Event>)
    ensures StateAfter(events).None? <==> exists i: nat :: FailsAt(events, i)
  {
    hide Step, Fails, Numbered;
    if events != [] {
      var last := |events| - 1;
      var before := events[..last];
      BreaksOffIff(before);
      RunNumbered(before);
      if StateAfter(before).Some? { StepNumbered(StateAfter(before).value, events[last]); }
      forall i: nat
        ensures FailsAt(events, i) <==> FailsAt(before, i) || (i == last && FailsAt(events, last))
      {
        if i < last { assert before[..i] == events[..i]; }
      }
      if StateAfter(before).None? {
        var i: nat :| FailsAt(before, i);
        assert FailsAt(events, i);
      } else if StateAfter(events).None? {
        assert FailsAt(events, last);
      }
    }
  }

  /** What becomes of one timer in a firing. */
  predicate FiredOne(v: View, w: View, now: int, calls: seq<Call>, id: Id)
    requires id in v.live
  {
    var timer := v.live[id];
    if timer.expiration > now then id in w.live && w.live[id] == timer
    else if timer.repeat && Cancel(id) !in calls
    then id in w.live && w.live[id] == timer.(expiration := now + timer.delta)
    else id !in w.live
  }

  /** A firing leaves every timer that was not due as it was, and of the due ones exactly the
      repeating ones that no callback cancelled, one interval from now. */
  lemma FiredKeeps(v: View, now: int, calls: seq<Call>, id: Id)
    requires Numbered(v) && Fired(v, now, calls).Some? && id in v.live
    ensures FiredOne(v, Fired(v, now, calls).value, now, calls, id)
  {
    var u := v.(live := v.live - Due(v.live, now));
    CallsKeep(u, calls);
    assert id in Cancels(calls) <==> Cancel(id) in calls;
  }

  // ---- the sorted set ----

  /** The order of std::pair: by time, then by timer. */
  predicate Before(a: Entry, b: Entry) { a.when < b.when || (a.when == b.when && a.id < b.id) }

  ghost predicate Sorted(s: seq<Entry>) { forall i, j | 0 <= i < j < |s| :: Before(s[i], s[j]) }

  ghost predicate DistinctIds(s: seq<Entry>) { forall i, j | 0 <= i < j < |s| :: s[i].id != s[j].id }

  ghost function Ids(s: seq<Entry>): set<Id> { set i | 0 <= i < |s| :: s[i].id }

  lemma {:induction false} IdCount(s: seq<Entry>)
    requires DistinctIds(s)
    ensures |Ids(s)| == |s|
  {
    if s != [] {
      var t := s[..|s| - 1];
      IdCount(t);
      assert Ids(s) == Ids(t) + {s[|s| - 1].id} by {
        forall x | x in Ids(s) ensures x in Ids(t) + {s[|s| - 1].id} {
          var i :| 0 <= i < |s| && s[i].id == x;
          if i < |t| { assert t[i].id == x; }
        }
        forall x | x in Ids(t) ensures x in Ids(s) {
          var i :| 0 <= i < |t| && t[i].id == x;
          assert s[i].id == x;
        }
        assert s[|s| - 1].id in Ids(s);
      }
    }
  }

  lemma NextId(s: seq<Entry>, i: nat)
    requires i < |s| && DistinctIds(s)
    ensures Ids(s[i..]) == {s[i].id} + Ids(s[i + 1..]) && s[i].id !in Ids(s[i + 1..])
  {
    var rest := s[i + 1..];
    forall j | 0 <= j < |rest| ensures rest[j].id != s[i].id { assert rest[j] == s[i + 1 + j]; }
    assert s[i..] == [s[i]] + s[i + 1..];
    IdsSplit([s[i]], s[i + 1..]);
    assert [s[i]][0].id == s[i].id;
  }

  lemma NoIds(s: seq<Entry>)
    ensures Ids(s[|s|..]) == {}
  {
  }

  lemma Listed(s: seq<Entry>)
    ensures forall i | 0 <= i < |s| :: s[i].id in Ids(s)
  {
  }

  lemma IdsSplit(a: seq<Entry>, b: seq<Entry>)
    ensures Ids(a + b) == Ids(a) + Ids(b)
  {
    forall x | x in Ids(a + b) ensures x in Ids(a) + Ids(b) {
      var i :| 0 <= i < |a + b| && (a + b)[i].id == x;
      if i < |a| { assert a[i].id == x; } else { assert b[i - |a|].id == x; }
    }
    forall x | x in Ids(a) ensures x in Ids(a + b) {
      var i :| 0 <= i < |a| && a[i].id == x;
      assert (a + b)[i].id == x;
    }
    forall x | x in Ids(b) ensures x in Ids(a + b) {
      var i :| 0 <= i < |b| && b[i].id == x;
      assert (a + b)[|a| + i].id == x;
    }
  }

  function Inserted(s: seq<Entry>, p: nat, e: Entry): (t: seq<Entry>)
    requires p <= |s|
    ensures |t| == |s| + 1
    ensures forall i | 0 <= i < |t| :: t[i] == if i < p then s[i] else if i == p then e else s[i - 1]
  {
    s[..p] + [e] + s[p..]
  }

  lemma InsertedIds(s: seq<Entry>, p: nat, e: Entry)
    requires p <= |s|
    ensures Ids(Inserted(s, p, e)) == Ids(s) + {e.id}
  {
    IdsSplit(s[..p] + [e], s[p..]);
    IdsSplit(s[..p], [e]);
    IdsSplit(s[..p], s[p..]);
    assert s[..p] + s[p..] == s;
    assert Ids([e]) == {e.id} by { assert [e][0].id == e.id; }
  }

  lemma InsertedSorted(s: seq<Entry>, p: nat, e: Entry)
    requires Sorted(s) && DistinctIds(s) && e.id !in Ids(s) && p <= |s|
    requires (forall i | 0 <= i < p :: Before(s[i], e)) && (p < |s| ==> !Before(s[p], e))
    ensures Sorted(Inserted(s, p, e)) && DistinctIds(Inserted(s, p, e))
  {
    var t := Inserted(s, p, e);
    hide Inserted;
    forall i | 0 <= i < |s| ensures s[i].id != e.id { assert s[i].id in Ids(s); }
    hide Ids;
    forall i | p <= i < |s| ensures Before(e, s[i]) {
      if i > p { assert Before(s[p], s[i]); }
    }
  }

  /** Cutting a sorted set in two. */
  lemma Cut(s: seq<Entry>, k: nat)
    requires Sorted(s) && DistinctIds(s) && k <= |s|
    ensures Sorted(s[k..]) && DistinctIds(s[k..]) && DistinctIds(s[..k])
    ensures Ids(s[..k]) + Ids(s[k..]) == Ids(s) && Ids(s[..k]) !! Ids(s[k..])
  {
    assert s[..k] + s[k..] == s;
    IdsSplit(s[..k], s[k..]);
    forall x | x in Ids(s[..k]) ensures x !in Ids(s[k..]) {
      var i :| 0 <= i < k && s[..k][i].id == x;
      forall j | 0 <= j < |s| - k ensures s[k..][j].id != x { assert s[i].id != s[k + j].id; }
    }
  }

  /** The timers due at `now`: a prefix of the sorted set. */
  ghost predicate SplitAt(s: seq<Entry>, k: nat, now: int) {
    && k <= |s|
    && (forall i | 0 <= i < k :: s[i].when <= now)
    && (forall i | k <= i < |s| :: s[i].when > now)
  }

  class Queue {
    var timers: seq<Entry>
    var active: set<Id>
    var cancelling: set<Id>
    var calling: bool
    var armed: Option<int>
    var info: map<Id, Timer>
    var next: nat

    /** Both sets describe the same timers, at the times the timers themselves hold. */
    ghost predicate Agree()
      reads this
    {
      && Ids(timers) == active
      && DistinctIds(timers)
      && forall i | 0 <= i < |timers| :: timers[i].id in info && info[timers[i].id].expiration == timers[i].when
    }

    ghost predicate Valid()
      reads this
    {
      Sorted(timers) && Agree() && (forall id | id in info :: id < next) && forall id | id in cancelling ::
          id < next && id !in active
    }

    /** The timers to come. */
    ghost function Now(): View
      reads this
    {
      View(map id | id in active && id in info :: info[id], next)
    }

    /** The timerfd goes off when the earliest timer is due. */
    ghost predicate Armed()
      reads this
    {
      timers != [] && timers[0].when > 0 ==> armed == Some(timers[0].when)
    }

    constructor ()
      ensures Valid() && Armed() && active == {} && timers == [] && !calling && info == map[] && Now() == EMPTY
    {
      timers, active, cancelling, calling, armed, info, next := [], {}, {}, false, None, map[], 1;
    }

    /** insert: reports whether the new timer is now the earliest. */
    method Insert(id: Id) returns (earliest: bool)
      requires Valid() && id in info && id !in active && id !in cancelling
      modifies this`timers, this`active
      ensures Valid() && active == old(active) + {id}
      ensures earliest <==> old(timers) == [] || info[id].expiration < old(timers)[0].when
      ensures timers != [] && timers[0].when == if earliest then info[id].expiration else old(timers)[0].when
    {
      hide Sorted, DistinctIds, Ids;
      var e := Entry(info[id].expiration, id);
      earliest := timers == [] || e.when < timers[0].when;
      var p := 0;
      while p < |timers| && Before(timers[p], e)
        invariant p <= |timers| && forall i | 0 <= i < p :: Before(timers[i], e)
      {
        p := p + 1;
      }
      InsertedSorted(timers, p, e);
      InsertedIds(timers, p, e);
      timers := Inserted(timers, p, e);
      active := active + {id};
      IdCount(timers);
      assert |timers| == |active|;
    }

    /** addTimer on the loop thread. */
    method AddTimer(when: int, repeat: bool, delta: nat) returns (id: Id)
      requires Valid()
      modifies this`timers, this`active, this`armed, this`info, this`next
      ensures Valid() && id == old(next) && next == old(next) + 1
      ensures old(id !in active) && active == old(active) + {id} && info == old(info)[id := Timer(when, repeat, delta)]
      ensures Some(Now()) == Called(old(Now()), Add(when, repeat, delta))
      ensures old(Armed()) ==> Armed()
    {
      ActiveKnown();
      hide Sorted, Ids, DistinctIds;
      id := next;
      next := next + 1;
      FreshId(id);
      info := info[id := Timer(when, repeat, delta)];
      var earliest := Insert(id);
      if earliest {
        armed := Some(when);
      }
      assert Now().live == old(Now()).live[id := info[id]];
    }

    lemma FreshId(id: Id)
      requires Agree() && forall i | i in info :: i < id
      ensures id !in active
    {
    }

    /** cancelInLoop, as written: the closing assertion holds if and only if the timer was not
        active.  An inactive one is remembered while callbacks run, so that it is not
        restarted. */
    method CancelTimer(id: Id) returns (ok: bool)
      requires Valid() && id < next
      modifies this`timers, this`cancelling, this`info
      ensures ok <==> id !in active
      ensures ok ==> Valid() && timers == old(timers) && info == old(info)
      ensures ok ==> cancelling == old(cancelling) + if calling then {id} else {}
      ensures !ok ==> |timers| + 1 == |active| && !Agree()
      ensures !ok ==> info == old(info) - {id} && exists p | 0 <= p < |old(timers)| ::
                old(timers)[p].id == id && timers == old(timers)[..p] + old(timers)[p + 1..]
    {
      IdCount(timers);
      if id in active {
        var e := Entry(info[id].expiration, id);
        var p := 0;
        while p < |timers| && timers[p] != e
          invariant p <= |timers| && forall i | 0 <= i < p :: timers[i] != e
        {
          p := p + 1;
        }
        assert p < |timers| by {
          var i :| 0 <= i < |timers| && timers[i].id == id;
          assert timers[i] == e;
        }
        timers := timers[..p] + timers[p + 1..];
        info := info - {id};
        if Agree() { IdCount(timers); }
      } else if calling {
        cancelling := cancelling + {id};
      }
      ok := |timers| == |active|;
    }

    /** getExpired: exactly the timers due, in order of expiration, leave both sets. */
    method GetExpired(now: int) returns (expired: seq<Entry>)
      requires Valid()
      modifies this`timers, this`active
      ensures Valid()
      ensures expired + timers == old(timers) && SplitAt(old(timers), |expired|, now)
      ensures active == old(active) - Ids(expired) && Ids(expired) <= old(active)
      ensures DistinctIds(expired) && forall i | 0 <= i < |expired| :: expired[i].id in info && expired[i].id !in active
      ensures Ids(expired) == Due(old(Now()).live, now) && Now().live == old(Now()).live - Ids(expired)
    {
      hide DistinctIds, Ids, Sorted, SplitAt, Due;
      var k := LowerBound(now);
      Cut(timers, k);
      DueIds(timers, active, info, k, now);
      expired := timers[..k];
      timers := timers[k..];
      EraseActive(expired);
      Listed(expired);
      IdCount(timers);
      assert |timers| == |active|;
      LiveWithout(old(active), active, info, Ids(expired));
    }

    /** The first timer after now. */
    method LowerBound(now: int) returns (k: nat)
      requires Sorted(timers)
      ensures k <= |timers| && SplitAt(timers, k, now)
    {
      k := 0;
      while k < |timers| && timers[k].when <= now
        invariant k <= |timers| && forall i | 0 <= i < k :: timers[i].when <= now
      {
        k := k + 1;
      }
    }

    method EraseActive(expired: seq<Entry>)
      requires DistinctIds(expired) && Ids(expired) <= active
      modifies this`active
      ensures active == old(active) - Ids(expired)
    {
      for i := 0 to |expired|
        invariant active == old(active) - Ids(expired[..i])
      {
        var e := expired[i];
        assert e.id in Ids(expired);
        assert e.id in active by {
          forall j | 0 <= j < i ensures expired[..i][j].id != e.id { assert expired[j].id != expired[i].id; }
        }
        InsertedIds(expired[..i], i, e);
        assert expired[..i + 1] == Inserted(expired[..i], i, e);
        active := active - {e.id};
      }
      assert expired[..|expired|] == expired;
    }

    /** One expired timer goes back in or is gone. */
    method ResetOne(id: Id, now: int)
      requires Valid() && id in info && id !in active
      modifies this`timers, this`active, this`info
      ensures Valid() && Settled(id, old(info), now)
      ensures forall x: Id | x != id ::
                (x in active <==> x in old(active)) && (x in info <==> x in old(info)) &&
                  (x in info ==> info[x] == old(info)[x])
    {
      hide Sorted, Ids;
      Absent(id);
      if info[id].repeat && id !in cancelling {
        info := info[id := info[id].(expiration := now + info[id].delta)];
        var _ := Insert(id);
      } else {
        info := info - {id};
      }
    }

    method Rearm()
      requires Valid()
      modifies this`armed
      ensures Valid() && Armed()
      ensures timers == [] || timers[0].when <= 0 ==> armed == old(armed)
    {
      if timers != [] {
        var nextExpire := info[timers[0].id].expiration;
        if nextExpire > 0 {
          armed := Some(nextExpire);
        }
      }
    }

    /** reset: the repeating timers of the batch that were not cancelled go back in, the others
        are gone, and the timerfd is armed for the earliest. */
    method Reset(expired: seq<Entry>, now: int)
      requires Valid() && DistinctIds(expired)
      requires forall i | 0 <= i < |expired| :: expired[i].id in info && expired[i].id !in active
      modifies this`timers, this`active, this`armed, this`info
      ensures Valid() && Armed()
      ensures forall i | 0 <= i < |expired| :: Settled(expired[i].id, old(info), now)
      ensures active <= old(active) + Ids(expired)
      ensures old(info).Keys == old(active) + Ids(expired) ==> info.Keys == active
      ensures Now().next == old(next)
      ensures Now().live == old(Now()).live + Restarted(old(info), Ids(expired), cancelling, now)
      ensures forall id | id in old(active) ::
                id in active && id in info && old(id in info) && info[id] == old(info[id])
    {
      hide Sorted, Ids, Agree;
      assert forall id | id in active :: id in info by { ActiveKnown(); }
      for i := 0 to |expired|
        invariant Valid() && active <= old(active) + Ids(expired)
        invariant old(info).Keys == old(active) + Ids(expired) ==> info.Keys == active + Ids(expired[i..])
        invariant forall j | 0 <= j < i :: Settled(expired[j].id, old(info), now)
        invariant forall j | i <= j < |expired| ::
                    expired[j].id in info && expired[j].id !in active && info[expired[j].id] == old(info)[expired[j].id]
        invariant forall id | id in old(active) :: id in active && id in info && info[id] == old(info[id])
      {
        Listed(expired);
        NextId(expired, i);
        ResetOne(expired[i].id, now);
      }
      NoIds(expired);
      ActiveKnown();
      ResetLive(expired, old(active), old(info), now);
      Rearm();
    }

    lemma ResetLive(expired: seq<Entry>, active0: set<Id>, info0: map<Id, Timer>, now: int)
      requires active0 <= info0.Keys && active <= info.Keys && active <= active0 + Ids(expired)
      requires forall i | 0 <= i < |expired| :: expired[i].id !in active0 && Settled(expired[i].id, info0, now)
      requires forall id | id in active0 :: id in active && info[id] == info0[id]
      ensures Now().live == (map id | id in active0 && id in info0 :: info0[id]) +
                            Restarted(info0, Ids(expired), cancelling, now)
    {
    }

    /** How an expired timer ends up. */
    ghost predicate Settled(id: Id, was: map<Id, Timer>, now: int)
      reads this
    {
      && id in was
      && (was[id].repeat && id !in cancelling ==>
            id in active && id in info && info[id] == was[id].(expiration := now + was[id].delta))
      && (!(was[id].repeat && id !in cancelling) ==> id !in active && id !in info)
    }

    lemma Absent(id: Id)
      requires Agree() && id !in active
      ensures forall i | 0 <= i < |timers| :: timers[i].id != id
    {
      forall i | 0 <= i < |timers| ensures timers[i].id != id { assert timers[i].id in Ids(timers); }
    }

    lemma ActiveKnown()
      requires Agree()
      ensures forall id | id in active :: id in info
    {
    }

    /** One call from a callback.  A TimerId not handed out yet cannot be cancelled. */
    method Perform(c: Call) returns (ok: bool)
      requires Valid()
      modifies this`timers, this`active, this`armed, this`info, this`next, this`cancelling
      ensures ok <==> !(c.Cancel? && c.id in old(active))
      ensures ok ==> Valid() && (old(Armed()) ==> Armed()) && old(next) <= next
      ensures !ok ==> !Agree()
      ensures ok ==> forall id: Id | id < old(next) ::
                (id in active <==> id in old(active)) && (id in info <==> id in old(info)) &&
                  (id in info ==> info[id] == old(info)[id])
      ensures ok ==> forall id: Id | id < old(next) ::
                id in cancelling <==> id in old(cancelling) || (calling && c == Cancel(id))
      ensures ok <==> Called(old(Now()), c).Some?
      ensures ok ==> Now() == Called(old(Now()), c).value && info.Keys - active == old(info.Keys - active)
      ensures ok && old(info.Keys == active) ==> info.Keys == active
    {
      ActiveKnown();
      ok := true;
      match c {
        case Add(when, repeat, delta) => var _ := AddTimer(when, repeat, delta);
        case Cancel(id) =>
          assert id in active ==> id < next by { ActiveKnown(); }
          if id < next {
            ok := CancelTimer(id);
          }
      }
    }

    /** readTimerfd: the timerfd is no longer armed. */
    method ReadTimerfd()
      requires Valid()
      modifies this`armed
      ensures Valid() && armed == None
    {
      armed := None;
    }

    /** The callbacks run: `calls` are what they do to the queue, `cancelling` which of the
        expired timers they cancelled. */
    method RunCallbacks(calls: seq<Call>) returns (ok: bool)
      requires Valid()
      modifies this
      ensures ok <==> CalledAll(old(Now()), calls).Some?
      ensures ok ==> Valid() && !calling && CalledAll(old(Now()), calls) == Some(Now())
      ensures ok ==> info.Keys - active == old(info.Keys - active)
      ensures ok ==> forall id | id in old(info.Keys - active) ::
                       info[id] == old(info)[id] && (id in cancelling <==> Cancel(id) in calls)
      ensures !ok ==> !Agree()
    {
      hide Sorted, Ids, DistinctIds, Called;
      calling := true;
      cancelling := {};
      ok := true;
      for i := 0 to |calls|
        invariant ok && Valid() && calling && old(next) <= next
        invariant CalledAll(old(Now()), calls[..i]) == Some(Now())
        invariant info.Keys - active == old(info.Keys - active)
        invariant forall id | id in old(info.Keys - active) ::
                    info[id] == old(info)[id] && (id in cancelling <==> Cancel(id) in calls[..i])
      {
        assert calls[..i + 1][..i] == calls[..i];
        ok := Perform(calls[i]);
        assert CalledAll(old(Now()), calls[..i + 1]).Some? <==> ok;
        if !ok {
          PrefixFails(old(Now()), calls, i + 1);
          return;
        }
        assert calls[..i + 1] == calls[..i] + [calls[i]];
      }
      assert calls[..|calls|] == calls;
      calling := false;
    }

    /** handleRead: what the callbacks of the expired timers do to the queue is `calls`.
        Unless one of them cancels a timer active at that moment, exactly the timers due have
        run, in order; of these, exactly the repeating ones that no callback cancelled are back
        in the queue, one interval from now, and the others are gone; every timer that was not
        due is as it was; and the timerfd is armed again. */
    method HandleRead(now: int, calls: seq<Call>) returns (expired: seq<Entry>, ok: bool)
      requires Valid() && !calling && info.Keys == active
      modifies this
      ensures expired <= old(timers) && SplitAt(old(timers), |expired|, now)
      ensures ok <==> !Fails(old(Now()), Fire(now, calls))
      ensures ok <==> Fired(old(Now()), now, calls).Some?
      ensures ok ==> Now() == Fired(old(Now()), now, calls).value
      ensures ok ==> Valid() && Armed() && !calling && info.Keys == active
      ensures !ok ==> !Agree()
      ensures ok ==> forall i | 0 <= i < |expired| :: expired[i].id in old(info) &&
                       var id, timer := expired[i].id, old(info)[expired[i].id];
                       && (id in active <==> timer.repeat && Cancel(id) !in calls)
                       && (id in active ==> id in info && info[id].expiration == now + timer.delta)
      ensures ok ==> forall id | id in old(active) - Ids(expired) ::
                id in active && id in info && info[id] == old(info)[id]
    {
      hide Agree, Sorted, SplitAt, DistinctIds, Ids, Due, Restarted, Cancels, Fails, Called, CalledAll;
      ghost var v := Now();
      assert v.live == info;
      ReadTimerfd();
      expired := GetExpired(now);
      assert Now() == v.(live := v.live - Due(v.live, now));
      assert info.Keys - active == Ids(expired);
      ok := RunCallbacks(calls);
      StepNumbered(v, Fire(now, calls));
      if !ok {
        return;
      }
      CancelsAll(calls);
      ActiveKnown();
      assert info.Keys == active + Ids(expired);
      RestartedSame(info, v.live, Ids(expired), cancelling, Cancels(calls), now);
      Reset(expired, now);
      assert info == Now().live;
      FiredBatch(v, Now(), now, calls, expired);
    }
  }

  lemma CancelsAll(calls: seq<Call>)
    ensures forall id: Id :: id in Cancels(calls) <==> Cancel(id) in calls
  {
  }

  /** The same of a whole batch: what the timers due and the others come to. */
  lemma FiredBatch(v: View, w: View, now: int, calls: seq<Call>, expired: seq<Entry>)
    requires Numbered(v) && Fired(v, now, calls) == Some(w) && Ids(expired) == Due(v.live, now)
    ensures forall i | 0 <= i < |expired| :: expired[i].id in v.live &&
              var id, timer := expired[i].id, v.live[expired[i].id];
              && (id in w.live <==> timer.repeat && Cancel(id) !in calls)
              && (id in w.live ==> w.live[id].expiration == now + timer.delta)
    ensures forall id | id in v.live.Keys - Ids(expired) :: id in w.live && w.live[id] == v.live[id]
  {
    forall id | id in v.live ensures FiredOne(v, w, now, calls, id) { FiredKeeps(v, now, calls, id); }
    Listed(expired);
  }

  lemma {:induction false} PrefixFails(v: View, calls: seq<Call>, i: nat)
    requires i <= |calls| && CalledAll(v, calls[..i]).None?
    ensures CalledAll(v, calls).None?
    decreases |calls|
  {
    if i < |calls| {
      assert calls[..|calls| - 1][..i] == calls[..i];
      PrefixFails(v, calls[..|calls| - 1], i);
    } else {
      assert calls[..i] == calls;
    }
  }

  /** The prefix of the sorted set that is due holds the timers due. */
  lemma DueIds(timers: seq<Entry>, active: set<Id>, info: map<Id, Timer>, k: nat, now: int)
    requires Ids(timers) == active && SplitAt(timers, k, now)
    requires forall i | 0 <= i < |timers| :: timers[i].id in info && info[timers[i].id].expiration == timers[i].when
    ensures Ids(timers[..k]) == Due(map id | id in active && id in info :: info[id], now)
  {
    var live := map id | id in active && id in info :: info[id];
    forall id | id in Ids(timers[..k]) ensures id in Due(live, now) {
      var i :| 0 <= i < k && timers[..k][i].id == id;
      assert timers[i].id in Ids(timers);
    }
    forall id | id in Due(live, now) ensures id in Ids(timers[..k]) {
      var i :| 0 <= i < |timers| && timers[i].id == id;
      assert timers[..k][i].id == id;
    }
  }

  lemma LiveWithout(was: set<Id>, active: set<Id>, info: map<Id, Timer>, ids: set<Id>)
    requires active == was - ids
    ensures (map id | id in active && id in info :: info[id]) == (map id | id in was && id in info :: info[id]) - ids
  {
  }

  lemma RestartedSame(a: map<Id, Timer>, b: map<Id, Timer>, ids: set<Id>, c: set<Id>, d: set<Id>, now: int)
    requires forall id | id in ids :: id in a && id in b && a[id] == b[id] && (id in c <==> id in d)
    ensures Restarted(a, ids, c, now) == Restarted(b, ids, d, now)
  {
  }

  lemma EarliestFirst(s: seq<Entry>)
    requires Sorted(s)
    ensures forall i, j | 0 <= i < j < |s| :: s[i].when < s[j].when || (s[i].when == s[j].when && s[i].id < s[j].id)
  {
  }

  /** Every sequence of calls on the loop thread and timer expiries breaks off exactly where an
      active timer is cancelled.  Up to there the two sets describe the same timers, the ones
      the events call for, nothing else is kept of any timer, the earliest come first, and the
      timerfd is armed in time. */
  method Run(events: seq<Event>) returns (q: Queue, ok: bool)
    ensures fresh(q)
    ensures ok <==> forall i: nat :: !FailsAt(events, i)
    ensures ok ==> StateAfter(events) == Some(View(q.info, q.next))
    ensures ok ==> q.Valid() && q.Armed() && q.info.Keys == q.active
    ensures ok ==> forall i, j | 0 <= i < j < |q.timers| ::
              var a, b := q.timers[i], q.timers[j]; a.when < b.when || (a.when == b.when && a.id < b.id)
    ensures !ok ==> !q.Agree()
  {
    hide Called, Fired, Fails, FailsAt, SplitAt, Ids, Sorted, DistinctIds;
    q := new Queue();
    ok := true;
    var expired: seq<Entry> := [];
    BreaksOffIff(events);
    for i := 0 to |events|
      invariant fresh(q) && ok && q.Valid() && q.Armed() && !q.calling && q.info.Keys == q.active
      invariant StateAfter(events[..i]) == Some(q.Now())
    {
      RunNumbered(events[..i]);
      StepNumbered(q.Now(), events[i]);
      match events[i] {
        case Do(call) => ok := q.Perform(call);
        case Fire(now, calls) => expired, ok := q.HandleRead(now, calls);
      }
      if !ok {
        FailedAt(events, i);
        return;
      }
      assert events[..i + 1][..i] == events[..i];
    }
    assert events[..|events|] == events;
    assert q.Now().live == q.info;
    EarliestFirst(q.timers);
  }

  lemma FailedAt(events: seq<Event>, i: nat)
    requires i < |events| && StateAfter(events[..i]).Some? && Fails(StateAfter(events[..i]).value, events[i])
    ensures FailsAt(events, i)
  {
  }

  /** Adding one timer and cancelling it: the sorted set is empty, the active set is not. */
  method CancelAfterAdd(when: int, repeat: bool, delta: nat) returns (q: Queue)
    ensures fresh(q) && q.timers == [] && |q.active| == 1
  {
    q := new Queue();
    var id := q.AddTimer(when, repeat, delta);
    var ok := q.CancelTimer(id);
  }
}
