/** The fixed-window request limiter of the security middleware. */
module RateLimiter {
  import opened EventLog

  datatype Key = Key(ip: string, path: string)

  datatype Slot = Slot(startedAt: real, count: nat)

  datatype Limits = Limits(window: int, max: int)

  /** The bounds that the middleware enforces on its settings for every request. */
  function Clamp(windowSeconds: int, maxRequests: int): (l: Limits)
    ensures Valid(l)
    ensures l == Limits(windowSeconds, maxRequests) <==> windowSeconds >= 1 && maxRequests >= 1
  {
    Limits(Max(windowSeconds, 1), Max(maxRequests, 1))
  }

  predicate Valid(l: Limits) {
    l.window >= 1 && l.max >= 1
  }

  /** The slot of a key after a request at `now`. */
  function Hit(l: Limits, slot: Option<Slot>, now: real): Slot {
    match slot
    case Some(Slot(startedAt, count)) =>
      if now - startedAt >= l.window as real then Slot(now, 1) else Slot(startedAt, count + 1)
    case None => Slot(now, 1)
  }

  predicate Admits(l: Limits, slot: Slot) {
    slot.count <= l.max
  }

  // ---- arrivals ----

  datatype Arrival = Arrival(key: Key, at: real)

  function Find(windows: map<Key, Slot>, key: Key): Option<Slot> {
    if key in windows then Some(windows[key]) else None
  }

  function Windows(l: Limits, arrivals: seq<Arrival>): map<Key, Slot> {
    if arrivals == [] then map[]
    else
      var before := Windows(l, arrivals[..|arrivals| - 1]);
      var a := arrivals[|arrivals| - 1];
      before[a.key := Hit(l, Find(before, a.key), a.at)]
  }

  /** The decision on the last arrival. */
  predicate LastAdmitted(l: Limits, arrivals: seq<Arrival>)
    requires arrivals != []
  {
    var a := arrivals[|arrivals| - 1];
    Admits(l, Hit(l, Find(Windows(l, arrivals[..|arrivals| - 1]), a.key), a.at))
  }

  function Of(arrivals: seq<Arrival>, key: Key): seq<real> {
    if arrivals == [] then []
    else
      Of(arrivals[..|arrivals| - 1], key) +
      if arrivals[|arrivals| - 1].key == key then [arrivals[|arrivals| - 1].at] else []
  }

  function SlotOf(l: Limits, times: seq<real>): Option<Slot> {
    if times == [] then None else Some(Hit(l, SlotOf(l, times[..|times| - 1]), times[|times| - 1]))
  }

  /** The slot of a key depends on that key's arrivals alone. */
  lemma {:induction false} KeysAreIndependent(l: Limits, arrivals: seq<Arrival>, key: Key)
    ensures Find(Windows(l, arrivals), key) == SlotOf(l, Of(arrivals, key))
  {
    if arrivals == [] {
    } else {
      var before := arrivals[..|arrivals| - 1];
      KeysAreIndependent(l, before, key);
      if arrivals[|arrivals| - 1].key == key {
        assert Of(arrivals, key)[..|Of(arrivals, key)| - 1] == Of(before, key);
      } else {
        assert Of(arrivals, key) == Of(before, key);
      }
    }
  }

  predicate Chronological(arrivals: seq<Arrival>) {
    forall i, j :: 0 <= i < j < |arrivals| ==> arrivals[i].at <= arrivals[j].at
  }

  function Last(arrivals: seq<Arrival>): Arrival
    requires arrivals != []
  {
    arrivals[|arrivals| - 1]
  }

  /** How many requests of the key were admitted in the half-open interval of window length from `from`. */
  function Admitted(l: Limits, arrivals: seq<Arrival>, key: Key, from: real): nat {
    if arrivals == [] then 0
    else
      Admitted(l, arrivals[..|arrivals| - 1], key, from) +
      if Last(arrivals).key == key && from <= Last(arrivals).at < from + l.window as real && LastAdmitted(l, arrivals)
      then 1 else 0
  }

  // ---- the sliding-window bound ----

  /** What the current slot of the key says about the admissions of an interval. */
  predicate Account(l: Limits, slot: Option<Slot>, from: real, admitted: nat) {
    match slot
    case None => admitted == 0
    case Some(Slot(startedAt, count)) =>
      && count >= 1
      && (startedAt < from ==> admitted <= Min(count, l.max) - 1)
      && (from <= startedAt < from + l.window as real ==> admitted <= l.max - 1 + Min(count, l.max))
      && admitted <= 2 * l.max - 1
  }

  /** One more request of the key, at `now`. */
  lemma AccountStep(l: Limits, slot: Option<Slot>, now: real, from: real, admitted: nat)
    requires Valid(l) && Account(l, slot, from, admitted)
    requires admitted > 0 ==> from <= now
    requires slot.Some? ==> slot.value.startedAt <= now
    ensures var next := Hit(l, slot, now);
            Account(l, Some(next), from,
                    admitted + if from <= now < from + l.window as real && Admits(l, next) then 1 else 0)
  {
  }

  lemma {:induction false} AccountHolds(l: Limits, arrivals: seq<Arrival>, key: Key, from: real)
    requires Valid(l) && Chronological(arrivals)
    ensures Account(l, Find(Windows(l, arrivals), key), from, Admitted(l, arrivals, key, from))
    ensures Admitted(l, arrivals, key, from) > 0 ==> arrivals != [] && from <= Last(arrivals).at
    ensures var slot := Find(Windows(l, arrivals), key);
            slot.Some? ==> arrivals != [] && slot.value.startedAt <= Last(arrivals).at
  {
    hide Account;
    if arrivals == [] {
      EmptyStart(l, key, from);
      assert Account(l, None, from, 0) by { NothingYet(l, from); }
    } else {
      var before := arrivals[..|arrivals| - 1];
      var a := Last(arrivals);
      AccountHolds(l, before, key, from);
      assert before != [] ==> Last(before) == arrivals[|arrivals| - 2];
      if a.key == key {
        AccountStep(l, Find(Windows(l, before), key), a.at, from, Admitted(l, before, key, from));
      }
    }
  }

  lemma NothingYet(l: Limits, from: real)
    ensures Account(l, None, from, 0)
  {
  }

  /** On a clock that never runs backwards, any half-open interval of window length admits at most
      2 * max - 1 requests of a key. */
  lemma SlidingWindowBound(l: Limits, arrivals: seq<Arrival>, key: Key, from: real)
    requires Valid(l) && Chronological(arrivals)
    ensures Admitted(l, arrivals, key, from) <= 2 * l.max - 1
  {
    AccountHolds(l, arrivals, key, from);
  }

  // ---- the bound is tight ----

  function Burst(key: Key, at: real, n: nat): seq<Arrival> {
    if n == 0 then [] else Burst(key, at, n - 1) + [Arrival(key, at)]
  }

  predicate Within(arrivals: seq<Arrival>, at: real) {
    forall i :: 0 <= i < |arrivals| ==> arrivals[i].at <= at
  }

  lemma {:induction false} BurstCounts(l: Limits, before: seq<Arrival>, key: Key, at: real, n: nat, from: real)
    requires Valid(l) && Chronological(before) && Within(before, at)
    requires from <= at < from + l.window as real
    requires Find(Windows(l, before), key).Some?
    requires var slot := Find(Windows(l, before), key).value;
             at - slot.startedAt < l.window as real && slot.count + n <= l.max
    ensures var after := before + Burst(key, at, n);
            var slot := Find(Windows(l, before), key).value;
            && Chronological(after) && Within(after, at)
            && Find(Windows(l, after), key) == Some(Slot(slot.startedAt, slot.count + n))
            && Admitted(l, after, key, from) == Admitted(l, before, key, from) + n
    decreases n
  {
    hide Windows, Admitted;
    var after := before + Burst(key, at, n);
    if n == 0 {
      assert after == before;
    } else {
      BurstCounts(l, before, key, at, n - 1, from);
      var prior := before + Burst(key, at, n - 1);
      assert after == prior + [Arrival(key, at)];
      Continuing(l, prior, key, at, from);
    }
  }

  lemma OneMore(l: Limits, before: seq<Arrival>, key: Key, at: real, from: real)
    requires Chronological(before) && Within(before, at)
    ensures var after := before + [Arrival(key, at)];
            var hit := Hit(l, Find(Windows(l, before), key), at);
            && Chronological(after) && Within(after, at)
            && Find(Windows(l, after), key) == Some(hit)
            && Admitted(l, after, key, from)
               == Admitted(l, before, key, from) + if from <= at < from + l.window as real && Admits(l, hit) then 1 else 0
  {
    hide Hit, Admits;
    var after := before + [Arrival(key, at)];
    assert after[..|after| - 1] == before && Last(after) == Arrival(key, at);
    NextSlot(l, after, key);
    hide Windows, LastAdmitted;
  }

  lemma NextSlot(l: Limits, arrivals: seq<Arrival>, key: Key)
    requires arrivals != []
    ensures var slot := Find(Windows(l, arrivals[..|arrivals| - 1]), key);
            && Find(Windows(l, arrivals), key) == (if Last(arrivals).key == key then Some(Hit(l, slot, Last(arrivals).at)) else slot)
            && (Last(arrivals).key == key ==> LastAdmitted(l, arrivals) == Admits(l, Hit(l, slot, Last(arrivals).at)))
  {
  }

  lemma Continuing(l: Limits, before: seq<Arrival>, key: Key, at: real, from: real)
    requires Valid(l) && Chronological(before) && Within(before, at)
    requires from <= at < from + l.window as real
    requires Find(Windows(l, before), key).Some?
    requires var slot := Find(Windows(l, before), key).value;
             at - slot.startedAt < l.window as real && slot.count < l.max
    ensures var after := before + [Arrival(key, at)];
            var slot := Find(Windows(l, before), key).value;
            && Chronological(after) && Within(after, at)
            && Find(Windows(l, after), key) == Some(Slot(slot.startedAt, slot.count + 1))
            && Admitted(l, after, key, from) == Admitted(l, before, key, from) + 1
  {
    OneMore(l, before, key, at, from);
    hide Windows, Admitted, Chronological, Within, LastAdmitted;
  }

  lemma Opening(l: Limits, before: seq<Arrival>, key: Key, at: real, from: real)
    requires Valid(l) && Chronological(before) && Within(before, at)
    requires var slot := Find(Windows(l, before), key);
             slot.None? || at - slot.value.startedAt >= l.window as real
    ensures var after := before + [Arrival(key, at)];
            && Chronological(after) && Within(after, at)
            && Find(Windows(l, after), key) == Some(Slot(at, 1))
            && Admitted(l, after, key, from)
               == Admitted(l, before, key, from) + if from <= at < from + l.window as real then 1 else 0
  {
    OneMore(l, before, key, at, from);
    hide Windows, Admitted, Chronological, Within, LastAdmitted;
  }

  /** For all limits some arrivals reach the bound: one request opens a window, max - 1 arrive in its
      second half, and max more arrive just as the window ends. */
  lemma BoundIsTight(l: Limits, key: Key) returns (arrivals: seq<Arrival>, from: real)
    requires Valid(l)
    ensures Chronological(arrivals)
    ensures Admitted(l, arrivals, key, from) == 2 * l.max - 1
  {
    hide Windows, Admitted;
    from := l.window as real / 2.0;
    assert Windows(l, []) == map[] && Admitted(l, [], key, from) == 0 by { EmptyStart(l, key, from); }
    Opening(l, [], key, 0.0, from);
    var one := [] + [Arrival(key, 0.0)];
    BurstCounts(l, one, key, from, l.max - 1, from);
    var two := one + Burst(key, from, l.max - 1);
    Opening(l, two, key, l.window as real, from);
    var three := two + [Arrival(key, l.window as real)];
    BurstCounts(l, three, key, l.window as real, l.max - 1, from);
    arrivals := three + Burst(key, l.window as real, l.max - 1);
  }

  lemma EmptyStart(l: Limits, key: Key, from: real)
    ensures Windows(l, []) == map[] && Admitted(l, [], key, from) == 0
  {
  }

  // ---- one internal window ----

  /** The requests of the key from `from` on. */
  function ArrivalsSince(arrivals: seq<Arrival>, key: Key, from: real): nat {
    if arrivals == [] then 0
    else
      ArrivalsSince(arrivals[..|arrivals| - 1], key, from) +
      if Last(arrivals).key == key && from <= Last(arrivals).at then 1 else 0
  }

  /** Those of them that were admitted. */
  function AdmittedSince(l: Limits, arrivals: seq<Arrival>, key: Key, from: real): nat {
    if arrivals == [] then 0
    else
      AdmittedSince(l, arrivals[..|arrivals| - 1], key, from) +
      if Last(arrivals).key == key && from <= Last(arrivals).at && LastAdmitted(l, arrivals) then 1 else 0
  }

  /** On a clock that never runs backwards, a window admits exactly min(arrivals, max) of the requests that
      came since it opened, and the counter of its slot is their number. */
  lemma {:induction false} WindowAdmitsMin(l: Limits, arrivals: seq<Arrival>, key: Key)
    requires Valid(l) && Chronological(arrivals)
    ensures var slot := Find(Windows(l, arrivals), key);
            slot.Some? ==>
              var since := slot.value.startedAt;
              && slot.value.count == ArrivalsSince(arrivals, key, since) >= 1
              && AdmittedSince(l, arrivals, key, since) == Min(ArrivalsSince(arrivals, key, since), l.max)
  {
    hide Windows, Account, LastAdmitted;
    if arrivals == [] {
      EmptyStart(l, key, 0.0);
    } else {
      var before := arrivals[..|arrivals| - 1];
      WindowAdmitsMin(l, before, key);
      NextSlot(l, arrivals, key);
      AccountHolds(l, before, key, 0.0);
      assert before != [] ==> Last(before) == arrivals[|arrivals| - 2];
      var slot := Find(Windows(l, before), key);
      if Last(arrivals).key == key && (slot.None? || Last(arrivals).at - slot.value.startedAt >= l.window as real) {
        SlotsAreOlder(l, before, key, Last(arrivals).at);
      }
    }
  }

  /** When a request opens a window, every earlier request of its key is strictly older. */
  lemma {:induction false} SlotsAreOlder(l: Limits, arrivals: seq<Arrival>, key: Key, now: real)
    requires Valid(l) && Chronological(arrivals) && Within(arrivals, now)
    requires var slot := Find(Windows(l, arrivals), key);
             slot.None? || now - slot.value.startedAt >= l.window as real
    ensures ArrivalsSince(arrivals, key, now) == 0 && AdmittedSince(l, arrivals, key, now) == 0
  {
    hide Windows, LastAdmitted;
    if arrivals == [] {
    } else {
      NextSlot(l, arrivals, key);
      SlotsAreOlder(l, arrivals[..|arrivals| - 1], key, now);
    }
  }

  // ---- the middleware ----

  /** The middleware's shared table; `history` is every request it has counted. */
  class Middleware {
    const limits: Limits
    var windows: map<Key, Slot>
    ghost var history: seq<Arrival>

    ghost predicate Consistent()
      reads this
    {
      Valid(limits) && windows == Windows(limits, history)
    }

    constructor (windowSeconds: int, maxRequests: int)
      ensures Consistent() && limits == Clamp(windowSeconds, maxRequests) && history == []
    {
      limits := Clamp(windowSeconds, maxRequests);
      windows := map[];
      history := [];
    }

    /** Counts the request and decides it; `retryAfter` is the delay that a rejected caller is told. */
    method Request(key: Key, now: real) returns (admitted: bool, retryAfter: int)
      requires Consistent()
      modifies this
      ensures Consistent() && history == old(history) + [Arrival(key, now)]
      ensures key in windows && admitted == LastAdmitted(limits, history)
      ensures !admitted ==> retryAfter == Max((limits.window as real - (now - windows[key].startedAt)).Floor, 1)
    {
      var startedAt, count := now, 0;
      if key in windows {
        startedAt, count := windows[key].startedAt, windows[key].count;
      }
      if now - startedAt >= limits.window as real {
        startedAt, count := now, 0;
      }
      count := count + 1;
      history := history + [Arrival(key, now)];
      assert history[..|history| - 1] == old(history);
      windows := windows[key := Slot(startedAt, count)];
      admitted, retryAfter := true, 0;
      if count > limits.max {
        retryAfter := Max((limits.window as real - (now - startedAt)).Floor, 1);
        admitted := false;
      }
    }
  }
}
