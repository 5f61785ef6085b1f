/**
 Traffic pacing of one tunnel in one direction (internal/limit/limiter.go, internal/edge/bridge.go): each
 chunk is charged to its second, day and week, then forwarded at once, forwarded after a wait, or refused.
 Times are nanoseconds of one clock.
 */
module Pacing {
  import opened Basics

  const DAY: int := 86400
  const WEEK: int := 7 * 86400
  const CHUNK: int := 16384
  const MAX_WAIT: int := 5 * SECOND

  datatype Limits = Limits(rate: int, packets: int, day: int, week: int)

  datatype Kind = Sec | Pkt | Day | Week

  datatype Slot = Slot(kind: Kind, key: int)

  datatype Counter = Counter(value: int, expires: int)

  type Store = map<Slot, Counter>

  datatype Counts = Counts(bytes: int, packets: int, day: int, week: int)

  datatype Verdict = Proceed | Wait(span: int) | Kill(window: Kind)

  // ----- windows -----

  /** The clock-aligned window a reading falls in. */
  function Key(kind: Kind, now: int): int {
    var sec := now / SECOND;
    match kind
    case Sec => sec
    case Pkt => sec
    case Day => sec / DAY
    case Week => sec / DAY / 7
  }

  function Length(kind: Kind): int {
    match kind
    case Sec => SECOND
    case Pkt => SECOND
    case Day => DAY * SECOND
    case Week => WEEK * SECOND
  }

  function Ttl(kind: Kind): int {
    match kind
    case Sec => 3 * SECOND
    case Pkt => 3 * SECOND
    case Day => 25 * 3600 * SECOND
    case Week => 7 * 24 * 3600 * SECOND + 3600 * SECOND
  }

  /** How long until the window of a reading is over. */
  function Reset(kind: Kind, now: int): int {
    (Key(kind, now) + 1) * Length(kind) - now
  }

  lemma WindowHoldsReading(kind: Kind, now: int)
    ensures Key(kind, now) * Length(kind) <= now < (Key(kind, now) + 1) * Length(kind)
    ensures 0 < Reset(kind, now) <= Length(kind) < Ttl(kind)
  {
    var sec := now / SECOND;
    var d := sec / DAY;
    assert sec * SECOND <= now < (sec + 1) * SECOND;
    assert d * DAY <= sec < (d + 1) * DAY;
  }

  lemma WindowsAdvance(kind: Kind, t: int, u: int)
    requires t <= u
    ensures Key(kind, t) <= Key(kind, u)
  {
    WindowHoldsReading(kind, t);
    WindowHoldsReading(kind, u);
  }

  /** A reading past the reset is in a later window. */
  lemma ResetEndsTheWindow(kind: Kind, t: int, u: int)
    requires u >= t + Reset(kind, t)
    ensures Key(kind, t) < Key(kind, u)
  {
    WindowHoldsReading(kind, u);
  }

  // ----- charging -----

  /** INCRBY, then EXPIRE NX: the first write of a window's key sets its expiry. */
  function Bump(store: Store, slot: Slot, n: int, at: int): Store {
    store[slot := if slot in store && at < store[slot].expires then Counter(store[slot].value + n, store[slot].expires)
                  else Counter(n, at + Ttl(slot.kind))]
  }

  function Charged(store: Store, n: int, now: int): Store {
    var s1 := Bump(store, Slot(Sec, Key(Sec, now)), n, now);
    var s2 := Bump(s1, Slot(Pkt, Key(Pkt, now)), 1, now);
    var s3 := Bump(s2, Slot(Day, Key(Day, now)), n, now);
    Bump(s3, Slot(Week, Key(Week, now)), n, now)
  }

  function CountsAt(store: Store, now: int): Counts
    requires forall kind :: Slot(kind, Key(kind, now)) in store
  {
    Counts(store[Slot(Sec, Key(Sec, now))].value, store[Slot(Pkt, Key(Pkt, now))].value,
           store[Slot(Day, Key(Day, now))].value, store[Slot(Week, Key(Week, now))].value)
  }

  /** The counts a chunk finds, itself included. */
  function CountsAfter(store: Store, n: int, now: int): Counts {
    CountsAt(Charged(store, n, now), now)
  }

  predicate Over(l: Limits, c: Counts, kind: Kind) {
    match kind
    case Sec => c.bytes > l.rate
    case Pkt => l.packets > 0 && c.packets > l.packets
    case Day => c.day > l.day
    case Week => c.week > l.week
  }

  function Decide(l: Limits, c: Counts, now: int): Verdict {
    if Over(l, c, Week) && Reset(Week, now) > MAX_WAIT then Kill(Week)
    else if Over(l, c, Day) && Reset(Day, now) > MAX_WAIT then Kill(Day)
    else
      var forSec := if Over(l, c, Sec) || Over(l, c, Pkt) then Reset(Sec, now) else 0;
      var forDay := if Over(l, c, Day) then Reset(Day, now) else 0;
      var forWeek := if Over(l, c, Week) then Reset(Week, now) else 0;
      var wait := Max(forSec, Max(forDay, forWeek));
      if wait > 0 then Wait(wait) else Proceed
  }

  /** The limiter's counters in the store. */
  class Windows {
    var store: Store
    const limits: Limits

    constructor (limits: Limits)
      ensures store == map[] && this.limits == limits
    {
      store := map[];
      this.limits := limits;
    }

    /** Charge: count the chunk in every window, then decide from the counts just read. */
    method Charge(n: int, now: int) returns (v: Verdict)
      modifies this
      ensures store == Charged(old(store), n, now)
      ensures v == Decide(limits, CountsAt(store, now), now)
    {
      store := Bump(store, Slot(Sec, Key(Sec, now)), n, now);
      var b := store[Slot(Sec, Key(Sec, now))].value;
      store := Bump(store, Slot(Pkt, Key(Pkt, now)), 1, now);
      var p := store[Slot(Pkt, Key(Pkt, now))].value;
      store := Bump(store, Slot(Day, Key(Day, now)), n, now);
      var d := store[Slot(Day, Key(Day, now))].value;
      store := Bump(store, Slot(Week, Key(Week, now)), n, now);
      var w := store[Slot(Week, Key(Week, now))].value;
      var overSec := b > limits.rate || (limits.packets > 0 && p > limits.packets);
      var dayOver, weekOver := d > limits.day, w > limits.week;
      if weekOver && Reset(Week, now) > MAX_WAIT {
        return Kill(Week);
      }
      if dayOver && Reset(Day, now) > MAX_WAIT {
        return Kill(Day);
      }
      var wait := 0;
      if overSec && Reset(Sec, now) > wait {
        wait := Reset(Sec, now);
      }
      if dayOver && Reset(Day, now) > wait {
        wait := Reset(Day, now);
      }
      if weekOver && Reset(Week, now) > wait {
        wait := Reset(Week, now);
      }
      if wait > 0 {
        return Wait(wait);
      }
      return Proceed;
    }
  }

  /**
   The verdict, from the windows: proceed exactly when no window is over; kill exactly when a day or week over
   its cap resets beyond the longest wait; otherwise a positive wait of at most five seconds, as long as the
   furthest window that is over and no longer. A kill names the window, the week before the day.
   */
  lemma VerdictIsRight(l: Limits, c: Counts, now: int)
    ensures var v := Decide(l, c, now);
            && (v.Proceed? <==> forall kind :: !Over(l, c, kind))
            && (v.Kill? <==> exists kind | kind in {Day, Week} :: Over(l, c, kind) && Reset(kind, now) > MAX_WAIT)
            && (v.Kill? ==> (v.window == if Over(l, c, Week) && Reset(Week, now) > MAX_WAIT then Week else Day))
            && (v.Wait? ==>
                  && 0 < v.span <= MAX_WAIT
                  && (forall kind :: Over(l, c, kind) ==> Key(kind, now) < Key(kind, now + v.span))
                  && (exists kind :: Over(l, c, kind) && v.span == Reset(kind, now)))
  {
    forall kind {
      WindowHoldsReading(kind, now);
    }
    var v := Decide(l, c, now);
    assert v.Kill? ==> v.window in {Day, Week} && Over(l, c, v.window) && Reset(v.window, now) > MAX_WAIT;
    if v.Wait? {
      forall kind | Over(l, c, kind)
        ensures Key(kind, now) < Key(kind, now + v.span)
      {
        ResetEndsTheWindow(kind, now, now + v.span);
      }
      assert Over(l, c, Sec) || Over(l, c, Pkt) || Over(l, c, Day) || Over(l, c, Week);
    } else if v.Proceed? {
      assert !Over(l, c, Sec) && !Over(l, c, Pkt) && !Over(l, c, Day) && !Over(l, c, Week);
    }
  }

  // ----- the streams -----

  datatype Stream = Reading | Holding(n: int, due: int, charged: int, counts: Counts) | Ended

  /** A chunk forwarded by a stream: when it was charged, what the counters said, when it left. */
  datatype Sent = Sent(stream: nat, n: int, charged: int, counts: Counts, at: int)

  datatype Sys = Sys(time: int, store: Store, streams: seq<Stream>, log: seq<Sent>)

  datatype Action =
    | Chunk(i: nat, n: int, at: int)    // a read, its charge, and the forward when it may proceed
    | Forward(i: nat, at: int)          // the forward after a wait
    | End(i: nat, at: int)

  predicate Enabled(s: Sys, a: Action) {
    && a.at >= s.time && a.i < |s.streams|
    && match a
       case Chunk(i, n, at) => s.streams[i].Reading? && 0 < n <= CHUNK
       case Forward(i, at) => s.streams[i].Holding? && at >= s.streams[i].due
       case End(i, at) => true
  }

  function Step(l: Limits, s: Sys, a: Action): Sys
    requires Enabled(s, a)
  {
    match a
    case Chunk(i, n, at) =>
      var store, c := Charged(s.store, n, at), CountsAfter(s.store, n, at);
      (match Decide(l, c, at)
       case Proceed => s.(time := at, store := store, log := s.log + [Sent(i, n, at, c, at)])
       case Wait(span) => s.(time := at, store := store, streams := s.streams[i := Holding(n, at + span, at, c)])
       case Kill(_) => s.(time := at, store := store, streams := s.streams[i := Ended]))
    case Forward(i, at) =>
      var h := s.streams[i];
      s.(time := at, streams := s.streams[i := Reading], log := s.log + [Sent(i, h.n, h.charged, h.counts, at)])
    case End(i, at) => s.(time := at, streams := s.streams[i := Ended])
  }

  predicate Init(s: Sys) {
    s.store == map[] && s.log == [] && forall i :: 0 <= i < |s.streams| ==> s.streams[i] == Reading
  }

  predicate Legal(l: Limits, s: Sys, run: seq<Action>)
    decreases |run|
  {
    run == [] || (Enabled(s, run[0]) && Legal(l, Step(l, s, run[0]), run[1..]))
  }

  function Exec(l: Limits, s: Sys, run: seq<Action>): Sys
    requires Legal(l, s, run)
    decreases |run|
  {
    if run == [] then s else Exec(l, Step(l, s, run[0]), run[1..])
  }
}
