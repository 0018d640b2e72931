/**
 * The reactor's timer set (net::TimerQueue): an ordered set of `(when, timer)` entries
 * served by one timerfd. Expired entries are taken off the front, their callbacks run in
 * order, and repeating timers go back in at their next time. The timerfd itself is
 * represented by the last delay it was armed with; the event loop runs every queued task
 * at once, since only one thread is modelled.
 */
module TimerQueues {
  import opened Wrappers
  import opened Timers

  // ---------------------------------------------------------------- entries

  /** An element of `TimerList`: the time the timer is filed under, and the timer. */
  datatype Entry = Entry(when: int, timer: Timer)

  /** The order of `std::set<Entry>`: by time, and timers due together by address. */
  predicate Before(a: Entry, b: Entry) {
    a.when < b.when || (a.when == b.when && a.timer.id < b.timer.id)
  }

  /** Strictly ascending, so no entry is held twice. */
  predicate Ordered(s: seq<Entry>) {
    forall i, j :: 0 <= i < j < |s| ==> Before(s[i], s[j])
  }

  /** No timer is filed twice. */
  predicate DistinctIds(s: seq<Entry>) {
    forall i, j :: 0 <= i < j < |s| ==> s[i].timer.id != s[j].timer.id
  }

  /** `e`'s timer is not filed in `s`. */
  predicate NewTimer(s: seq<Entry>, e: Entry) {
    forall x | x in s :: x.timer.id != e.timer.id
  }

  /**
   * Every entry of `s` is filed under its timer's current time, its timer is not cancelled,
   * and its id was handed out before `bound`.
   */
  predicate Filed(s: seq<Entry>, bound: nat)
    reads set x | x in s :: x.timer
  {
    forall x | x in s :: x.when == x.timer.when && !x.timer.canceled && x.timer.id < bound
  }

  /** `timers_.insert(e)`: `e` goes in at its place in the order. */
  function Insert(s: seq<Entry>, e: Entry): (r: seq<Entry>)
    ensures multiset(r) == multiset(s) + multiset{e}
  {
    if s == [] || Before(e, s[0]) then [e] + s
    else assert s == [s[0]] + s[1..]; [s[0]] + Insert(s[1..], e)
  }

  /** Inserting a timer that is not filed yet keeps the set ordered and free of repeats. */
  lemma {:induction false} InsertOrdered(s: seq<Entry>, e: Entry)
    requires Ordered(s) && DistinctIds(s) && NewTimer(s, e)
    ensures Ordered(Insert(s, e)) && DistinctIds(Insert(s, e))
  {
    if s != [] && !Before(e, s[0]) {
      InsertOrdered(s[1..], e);
      var r := Insert(s[1..], e);
      forall x | x in r
        ensures Before(s[0], x) && x.timer.id != s[0].timer.id
      {
        assert x in multiset(r);
        if x != e {
          assert x in s[1..];
        }
      }
      assert Insert(s, e) == [s[0]] + r;
    }
  }

  /** The inserted entry comes first exactly when it is earlier than every entry already filed. */
  lemma InsertFirst(s: seq<Entry>, e: Entry)
    requires Ordered(s) && NewTimer(s, e)
    ensures Insert(s, e)[0] == e <==> forall x | x in s :: Before(e, x)
  {
    if s != [] && !Before(e, s[0]) {
      assert s[0] in multiset(s);
      assert s[0] in s && s[0] != e;
    }
  }

  /** The entries of both halves of a filed sequence are filed. */
  lemma FiledAppend(a: seq<Entry>, b: seq<Entry>, bound: nat)
    requires Filed(a + b, bound)
    ensures Filed(a, bound) && Filed(b, bound)
  {
    assert forall x | x in a :: x in a + b;
    assert forall x | x in b :: x in a + b;
  }

  /** Filing a live entry keeps every entry filed; a larger bound does too. */
  lemma FiledInsert(s: seq<Entry>, e: Entry, bound: nat, bound': nat)
    requires Filed(s, bound) && bound <= bound'
    requires e.when == e.timer.when && !e.timer.canceled && e.timer.id < bound'
    ensures Filed(Insert(s, e), bound')
  {
    forall x | x in Insert(s, e)
      ensures x.when == x.timer.when && !x.timer.canceled && x.timer.id < bound'
    {
      assert x in multiset(Insert(s, e));
    }
  }

  /** `timers_.erase(e)`: every entry equal to `e` leaves, and the rest keep their order. */
  function Remove(s: seq<Entry>, e: Entry): (r: seq<Entry>)
    ensures forall x | x in r :: x in s && x != e
    ensures forall x | x in s && x != e :: x in r
    ensures |r| <= |s|
  {
    if s == [] then []
    else if s[0] == e then Remove(s[1..], e)
    else [s[0]] + Remove(s[1..], e)
  }

  /** Erasing keeps the set ordered and free of repeats. */
  lemma {:induction false} RemoveOrdered(s: seq<Entry>, e: Entry)
    requires Ordered(s) && DistinctIds(s)
    ensures Ordered(Remove(s, e)) && DistinctIds(Remove(s, e))
  {
    if s != [] {
      RemoveOrdered(s[1..], e);
      if s[0] != e {
        var r := Remove(s[1..], e);
        forall x | x in r
          ensures Before(s[0], x) && x.timer.id != s[0].timer.id
        {
          assert x in s[1..];
        }
        assert Remove(s, e) == [s[0]] + r;
      }
    }
  }

  /** How many entries at the front are due at `now`: the `lower_bound` of `(now + 1ns, nullptr)`. */
  function Split(s: seq<Entry>, now: int): (k: nat)
    ensures k <= |s|
    ensures forall i :: 0 <= i < k ==> s[i].when <= now
    ensures k < |s| ==> s[k].when > now
  {
    if s == [] || s[0].when > now then 0 else 1 + Split(s[1..], now)
  }

  /** In an ordered set, every entry after the due ones is later than `now`. */
  lemma SplitRest(s: seq<Entry>, now: int)
    requires Ordered(s)
    ensures forall i :: Split(s, now) <= i < |s| ==> s[i].when > now
  {
    var k := Split(s, now);
    forall i | k <= i < |s|
      ensures s[i].when > now
    {
      if i > k {
        assert Before(s[k], s[i]);
      }
    }
  }

  /** The time `e`'s timer holds after it ran: one interval on for a repeating timer. */
  function NextWhen(e: Entry): int {
    if e.timer.repeat then e.when + e.timer.interval * NanosPerMicro else e.when
  }

  /** `e` after its timer ran: a repeating timer is filed again one interval later. */
  function Reinsert(s: seq<Entry>, e: Entry): seq<Entry> {
    if e.timer.repeat then Insert(s, Entry(NextWhen(e), e.timer)) else s
  }

  /** No timer is filed in both `a` and `b`. */
  predicate Disjoint(a: seq<Entry>, b: seq<Entry>) {
    forall x, y | x in a && y in b :: x.timer.id != y.timer.id
  }

  lemma DistinctAppend(a: seq<Entry>, b: seq<Entry>)
    requires DistinctIds(a + b)
    ensures DistinctIds(a) && DistinctIds(b) && Disjoint(b, a)
  {
    forall i, j | 0 <= i < j < |a|
      ensures a[i].timer.id != a[j].timer.id
    {
      assert (a + b)[i] == a[i] && (a + b)[j] == a[j];
    }
    forall i, j | 0 <= i < j < |b|
      ensures b[i].timer.id != b[j].timer.id
    {
      assert (a + b)[|a| + i] == b[i] && (a + b)[|a| + j] == b[j];
    }
    forall x, y | x in b && y in a
      ensures x.timer.id != y.timer.id
    {
      var i :| 0 <= i < |b| && b[i] == x;
      var j :| 0 <= j < |a| && a[j] == y;
      assert (a + b)[|a| + i] == x && (a + b)[j] == y;
    }
  }

  /** Handling `ex[i]` keeps the timers still to be handled apart from the filed ones. */
  lemma DisjointStep(t: seq<Entry>, t2: seq<Entry>, ex: seq<Entry>, i: nat)
    requires i < |ex| && Disjoint(t, ex[i..]) && DistinctIds(ex)
    requires forall x | x in t2 :: x in t || x.timer == ex[i].timer
    ensures NewTimer(t, ex[i])
    ensures Disjoint(t2, ex[i + 1..])
  {
    assert ex[i] in ex[i..];
    forall x, y | x in t2 && y in ex[i + 1..]
      ensures x.timer.id != y.timer.id
    {
      var j :| i + 1 <= j < |ex| && ex[j] == y;
      assert y in ex[i..];
    }
  }

  /** The set after the expired entries `ex` were handled in order, starting from `rest`. */
  function Rearmed(rest: seq<Entry>, ex: seq<Entry>): seq<Entry> {
    if ex == [] then rest else Reinsert(Rearmed(rest, ex[..|ex| - 1]), ex[|ex| - 1])
  }

  lemma RearmedStep(rest: seq<Entry>, ex: seq<Entry>, i: nat)
    requires i < |ex|
    ensures Rearmed(rest, ex[..i + 1]) == Reinsert(Rearmed(rest, ex[..i]), ex[i])
  {
    assert ex[..i + 1][..i] == ex[..i];
  }

  /** The ids of the timers among `ex` whose callback runs, in order. */
  function CallbackIds(ex: seq<Entry>): seq<nat> {
    if ex == [] then []
    else CallbackIds(ex[..|ex| - 1]) + (if ex[|ex| - 1].timer.hasCallback then [ex[|ex| - 1].timer.id] else [])
  }

  lemma CallbackIdsStep(ex: seq<Entry>, i: nat)
    requires i < |ex|
    ensures CallbackIds(ex[..i + 1]) == CallbackIds(ex[..i]) + (if ex[i].timer.hasCallback then [ex[i].timer.id] else [])
  {
    assert ex[..i + 1][..i] == ex[..i];
  }

  lemma AppendAssoc(a: seq<nat>, b: seq<nat>, c: seq<nat>)
    ensures a + b + c == a + (b + c)
  {
  }

  /** A timer none of `ex` files has no callback run. */
  lemma {:induction false} CallbackIdsAbsent(ex: seq<Entry>, id: nat)
    requires forall j :: 0 <= j < |ex| ==> ex[j].timer.id != id
    ensures multiset(CallbackIds(ex))[id] == 0
  {
    if ex != [] {
      CallbackIdsAbsent(ex[..|ex| - 1], id);
    }
  }

  /** Of distinct expired timers, each one with a callback runs exactly once, and no other does. */
  lemma {:induction false} CallbackIdsOnce(ex: seq<Entry>)
    requires DistinctIds(ex)
    ensures forall i | 0 <= i < |ex| :: multiset(CallbackIds(ex))[ex[i].timer.id] == (if ex[i].timer.hasCallback then 1 else 0)
  {
    if ex != [] {
      var n := |ex| - 1;
      var init := ex[..n];
      CallbackIdsOnce(init);
      CallbackIdsAbsent(init, ex[n].timer.id);
      forall i | 0 <= i < |ex|
        ensures multiset(CallbackIds(ex))[ex[i].timer.id] == (if ex[i].timer.hasCallback then 1 else 0)
      {
        if i < n {
          assert init[i] == ex[i];
        }
      }
    }
  }

  // ---------------------------------------------------------------- arming the timerfd

  /** `std::nano::den`. */
  const NanosPerSecond: int := 1000000000
  const MicrosPerSecond: int := 1000000
  const NanosPerMilli: int := 1000000

  /** `struct timespec`. */
  datatype Timespec = Timespec(sec: int, nsec: int)

  /** Integer division as C++ does it: the quotient is truncated toward zero. */
  function TruncDiv(a: int, b: int): (q: int)
    requires b > 0
    ensures a >= 0 ==> q * b <= a < q * b + b
    ensures a < 0 ==> q * b - b < a <= q * b
  {
    if a >= 0 then a / b else -((-a) / b)
  }

  /** `duration_cast<Microsecond>(when - now)`, raised to 1 ms when less. */
  function DelayMicros(when: int, now: int): (us: int)
    ensures us >= 1000
  {
    var us := TruncDiv(when - now, NanosPerMicro);
    if us < 1000 then 1000 else us
  }

  /**
   * `durationFromNow` as written: the microsecond count is split into seconds and
   * nanoseconds as if it were a nanosecond count.
   */
  function DurationFromNowAsWritten(when: int, now: int): Timespec {
    var us := DelayMicros(when, now);
    Timespec(us / NanosPerSecond, us % NanosPerSecond)
  }

  /**
   * The delay `durationFromNow` evidently means to arm the timerfd with: the microsecond
   * count as seconds and nanoseconds. The queue arms with `DurationFromNowAsWritten`.
   */
  function DurationFromNow(when: int, now: int): (d: Timespec)
    ensures 0 <= d.nsec < NanosPerSecond
    ensures d.sec * NanosPerSecond + d.nsec == DelayMicros(when, now) * NanosPerMicro
  {
    var us := DelayMicros(when, now);
    Timespec(us / MicrosPerSecond, (us % MicrosPerSecond) * NanosPerMicro)
  }

  /** The delay is the time left until `when`, to the microsecond, and never under 1 ms. */
  lemma DurationFromNowMatches(when: int, now: int)
    ensures var d := DurationFromNow(when, now);
            d.sec * NanosPerSecond + d.nsec >= NanosPerMilli &&
            (when - now >= NanosPerMilli ==> when - now - NanosPerMicro < d.sec * NanosPerSecond + d.nsec <= when - now)
  {
  }

  /** As written, the armed delay counts microseconds as nanoseconds: it is 1000 times too short. */
  lemma DurationFromNowAsWrittenScale(when: int, now: int)
    ensures var d := DurationFromNowAsWritten(when, now);
            d.sec * NanosPerSecond + d.nsec == DelayMicros(when, now)
  {
  }

  /** A timer due in 1.5 s arms the timerfd for 1.5 ms as written, and for 1.5 s as intended. */
  lemma DurationFromNowAsWrittenExample()
    ensures DurationFromNowAsWritten(1500000000, 0) == Timespec(0, 1500000)
    ensures DurationFromNow(1500000000, 0) == Timespec(1, 500000000)
  {
  }

  // ---------------------------------------------------------------- the queue

  class TimerQueue {
    /** `timers_`, in the set's order. */
    var timers: seq<Entry>
    /** The delay the timerfd was last armed with (`timerfdSet`), if any. */
    var armed: Option<Timespec>
    /** The ids of the timers whose callback ran, in the order they ran. */
    var fired: seq<nat>
    /** Where the next timer's address comes from. */
    var nextId: nat

    /** The timers filed in the set. */
    function Timers(): set<Timer>
      reads this
    {
      set e | e in timers :: e.timer
    }

    /** Every entry is filed under its timer's time, and no filed timer is cancelled. */
    predicate Valid()
      reads this, Timers()
    {
      Ordered(timers) && DistinctIds(timers) && Filed(timers, nextId)
    }

    constructor ()
      ensures Valid() && timers == [] && armed == None && fired == []
    {
      timers := [];
      armed := None;
      fired := [];
      nextId := 0;
    }

    /** `nextTimeout`: 0 with no timers, else the time to the earliest one in whole milliseconds. */
    function NextTimeout(now: int): (ms: int)
      reads this
      ensures timers == [] ==> ms == 0
      ensures timers != [] && timers[0].when >= now ==> ms * NanosPerMilli <= timers[0].when - now < ms * NanosPerMilli + NanosPerMilli
      ensures timers != [] && timers[0].when < now ==> ms <= 0
    {
      if timers == [] then 0 else TruncDiv(timers[0].when - now, NanosPerMilli)
    }

    /**
     * `addTimer`: a new timer is filed under `when`; the timerfd is re-armed only when
     * the new entry is the earliest, with `durationFromNow` as written.
     */
    method AddTimer(hasCallback: bool, when: int, interval: int, now: int) returns (timer: Timer)
      requires Valid()
      modifies this
      ensures Valid() && fresh(timer)
      ensures timer.when == when && timer.interval == interval && timer.hasCallback == hasCallback
      ensures timer.repeat <==> interval > 0
      ensures timers == Insert(old(timers), Entry(when, timer))
      ensures armed == if forall x | x in old(timers) :: Before(Entry(when, timer), x)
                       then Some(DurationFromNowAsWritten(when, now)) else old(armed)
      ensures fired == old(fired)
    {
      timer := new Timer(nextId, hasCallback, when, interval);
      var e := Entry(when, timer);
      assert NewTimer(timers, e);
      InsertOrdered(timers, e);
      InsertFirst(timers, e);
      FiledInsert(timers, e, nextId, nextId + 1);
      nextId := nextId + 1;
      timers := Insert(timers, e);
      if timers[0] == e {
        armed := Some(DurationFromNowAsWritten(when, now));
      }
    }

    /** `cancelTimer`: a filed timer is marked cancelled and its entry leaves the set. */
    method CancelTimer(timer: Timer)
      requires Valid() && timer in Timers()
      modifies this, timer
      ensures Valid()
      ensures timer.canceled
      ensures timers == Remove(old(timers), Entry(old(timer.when), timer))
      ensures forall x | x in timers :: x.timer != timer
      ensures armed == old(armed) && fired == old(fired)
    {
      RemoveOrdered(timers, Entry(timer.when, timer));
      timer.Cancel();
      timers := Remove(timers, Entry(timer.when, timer));
    }

    /** `getExpired`: the entries due at `now` leave the set, in order; the rest are later. */
    method GetExpired(now: int) returns (entries: seq<Entry>)
      requires Ordered(timers)
      modifies this
      ensures entries + timers == old(timers)
      ensures forall e | e in entries :: e.when <= now
      ensures forall e | e in timers :: e.when > now
      ensures entries == old(timers)[..Split(old(timers), now)]
      ensures armed == old(armed) && fired == old(fired) && nextId == old(nextId)
    {
      var k := Split(timers, now);
      SplitRest(timers, now);
      entries := timers[..k];
      timers := timers[k..];
    }

    /** The timers `handleRead` may touch: those of the entries due at `now`. */
    function ExpiredTimers(now: int): set<Timer>
      reads this
    {
      TimersOf(timers[..Split(timers, now)])
    }

    /**
     * `handleRead`: every expired timer runs once, in the set's order; a repeating one is
     * filed again one interval after it was due, and the timerfd is re-armed for the
     * earliest entry left, if any, with `durationFromNow` as written.
     */
    method HandleRead(now: int)
      requires Valid()
      modifies this, ExpiredTimers(now)
      ensures Valid()
      ensures timers == Rearmed(old(timers)[Split(old(timers), now)..], old(timers)[..Split(old(timers), now)])
      ensures fired == old(fired) + CallbackIds(old(timers)[..Split(old(timers), now)])
      ensures forall e | e in old(timers)[..Split(old(timers), now)] :: e.timer.when == NextWhen(e)
      ensures armed == if timers == [] then old(armed) else Some(DurationFromNowAsWritten(timers[0].when, now))
    {
      var ex := GetExpired(now);
      FiledAppend(ex, timers, nextId);
      RunAll(ex, now);
      if timers != [] {
        armed := Some(DurationFromNowAsWritten(timers[0].when, now));
      }
    }

    /** The timers of `ex`. */
    static function TimersOf(ex: seq<Entry>): set<Timer> {
      set j | 0 <= j < |ex| :: ex[j].timer
    }

    /** The loop of `handleRead`: the expired entries `ex`, handled in order. */
    method RunAll(ex: seq<Entry>, now: int)
      requires Ordered(timers) && DistinctIds(ex + timers)
      requires Filed(ex, nextId) && forall e | e in ex :: e.when <= now
      requires Filed(timers, nextId)
      modifies this, TimersOf(ex)
      ensures timers == Rearmed(old(timers), ex)
      ensures fired == old(fired) + CallbackIds(ex)
      ensures Ordered(timers) && DistinctIds(timers)
      ensures Filed(timers, nextId)
      ensures forall j | 0 <= j < |ex| :: ex[j].timer.when == NextWhen(ex[j])
      ensures armed == old(armed) && nextId == old(nextId)
    {
      ghost var rest := timers;
      DistinctAppend(ex, timers);
      assert forall j | 0 <= j < |ex| :: ex[j] in ex;
      for i := 0 to |ex|
        invariant timers == Rearmed(rest, ex[..i])
        invariant fired == old(fired) + CallbackIds(ex[..i])
        invariant Pending(ex, i, now)
        invariant forall j | 0 <= j < i :: ex[j].timer.when == NextWhen(ex[j])
        invariant armed == old(armed) && nextId == old(nextId)
      {
        RearmedStep(rest, ex, i);
        CallbackIdsStep(ex, i);
        AppendAssoc(old(fired), CallbackIds(ex[..i]), if ex[i].timer.hasCallback then [ex[i].timer.id] else []);
        RunNext(ex, i, now);
      }
      assert ex[..|ex|] == ex;
    }

    /**
     * The state between two turns of `handleRead`'s loop: the set is well formed, and the
     * expired entries from `i` on are still as filed and apart from the set.
     */
    predicate Pending(ex: seq<Entry>, i: nat, now: int)
      reads this, Timers(), TimersOf(ex)
    {
      i <= |ex| &&
      Ordered(timers) && DistinctIds(timers) && DistinctIds(ex) && Disjoint(timers, ex[i..]) &&
      Filed(timers, nextId) &&
      forall j | i <= j < |ex| ::
        ex[j].when <= now && ex[j].when == ex[j].timer.when && !ex[j].timer.canceled && ex[j].timer.id < nextId
    }

    /** A turn of the loop on `ex[i]`, with what it leaves alone among the other expired timers. */
    method RunNext(ex: seq<Entry>, i: nat, now: int)
      requires i < |ex| && Pending(ex, i, now)
      requires forall j | 0 <= j < i :: ex[j].timer.when == NextWhen(ex[j])
      modifies this, ex[i].timer
      ensures timers == Reinsert(old(timers), ex[i])
      ensures fired == old(fired) + (if ex[i].timer.hasCallback then [ex[i].timer.id] else [])
      ensures Pending(ex, i + 1, now)
      ensures forall j | 0 <= j < i + 1 :: ex[j].timer.when == NextWhen(ex[j])
      ensures armed == old(armed) && nextId == old(nextId)
    {
      ghost var before := timers;
      DisjointStep(timers, timers, ex, i);
      RunExpired(ex[i], now);
      DisjointStep(before, timers, ex, i);
      forall j | 0 <= j < |ex| && j != i
        ensures ex[j].timer != ex[i].timer
      {
        assert ex[j].timer.id != ex[i].timer.id;
      }
    }

    /** One turn of `handleRead`'s loop: run the timer, then file it again or let it go. */
    method RunExpired(e: Entry, now: int)
      requires e.when == e.timer.when && e.when <= now && !e.timer.canceled && e.timer.id < nextId
      requires Ordered(timers) && DistinctIds(timers) && NewTimer(timers, e)
      requires Filed(timers, nextId)
      modifies this, e.timer
      ensures timers == Reinsert(old(timers), e)
      ensures fired == old(fired) + (if e.timer.hasCallback then [e.timer.id] else [])
      ensures e.timer.when == NextWhen(e)
      ensures Ordered(timers) && DistinctIds(timers)
      ensures forall x | x in timers :: x in old(timers) || x.timer == e.timer
      ensures Filed(timers, nextId)
      ensures armed == old(armed) && nextId == old(nextId)
    {
      var timer := e.timer;
      ghost var t0 := timers;
      assert timer.Expired(now);
      var invoked := timer.Run();
      if invoked {
        fired := fired + [timer.id];
      }
      if timer.repeat {
        timer.Restart();
        var again := Entry(timer.when, timer);
        assert again == Entry(NextWhen(e), e.timer);
        InsertOrdered(timers, again);
        timers := Insert(timers, again);
        assert timers == Reinsert(t0, e);
        forall x | x in timers
          ensures x in t0 || x == again
        {
          assert x in multiset(timers);
        }
      }
      forall x | x in timers
        ensures x.when == x.timer.when && !x.timer.canceled && x.timer.id < nextId
      {
        if x in t0 {
          assert x.timer.id != timer.id;
        }
      }
    }
  }
}
