/**
 The token-bucket arithmetic of internal/limit/acme_budget.go.

 Instants and durations are whole nanoseconds, as in Go; token counts are reals. A bucket is kept in
 the shared store as the pair (tokens, instant in whole milliseconds) under a key that expires.
 Server time decides expiry; node readings, which may be skewed against it, drive the arithmetic.
 */
module TokenBucket {
  import opened Basics

  const KEY_MARGIN: int := 3600 * SECOND

  datatype Bucket = Bucket(key: string, capacity: real, refill: int)

  datatype Level = Level(tokens: real, at: int)

  /** What the store holds under a bucket's key: the level, and the server instant it is forgotten. */
  datatype Entry = Entry(tokens: real, at: int, expires: int) {
    function AsLevel(): Level {
      Level(tokens, at)
    }
  }

  datatype Rate = Rate(count: int, period: int, burst: int) {
    function ToBucket(key: string): Bucket
      requires period >= 0
    {
      Bucket(key, burst as real, if count > 0 then period / count else period)
    }
  }

  function Min(a: real, b: real): real {
    if a <= b then a else b
  }

  /** A Go float-to-integer conversion drops the fraction. */
  function Truncate(x: real): int {
    if x >= 0.0 then x.Floor else -((-x).Floor)
  }

  function FloorMs(t: int): int {
    t / MILLISECOND * MILLISECOND
  }

  /** Tokens that come back in a span of time. */
  function Refilled(b: Bucket, span: int): real
    requires b.refill > 0
  {
    span as real / b.refill as real
  }

  /** The time a number of tokens takes to come back. */
  function TimeFor(b: Bucket, tokens: real): real {
    tokens * b.refill as real
  }

  function TokensAt(b: Bucket, s: Level, now: int): real {
    if now < s.at || b.refill <= 0 then s.tokens
    else Min(b.capacity, s.tokens + Refilled(b, now - s.at))
  }

  function WaitFor(b: Bucket, s: Level, now: int, need: real): int {
    if need > b.capacity then b.refill
    else if now < s.at then s.at - now + Truncate(TimeFor(b, need - s.tokens))
    else Truncate(TimeFor(b, need - TokensAt(b, s, now)))
  }

  function SpendN(b: Bucket, s: Level, now: int, n: real): Level {
    if now < s.at then Level(s.tokens - n, s.at)
    else Level(TokensAt(b, s, now) - n, now)
  }

  function KeyTTL(b: Bucket, s: Level, now: int): int {
    Truncate(TimeFor(b, b.capacity - Min(s.tokens, b.capacity))) + KEY_MARGIN
    + (if s.at > now then s.at - now else 0)
  }

  /** Writing a level: the instant is cut to milliseconds, and so is the expiry sent to the store. */
  function Stored(b: Bucket, s: Level, now: int, server: int): Entry {
    Entry(s.tokens, FloorMs(s.at), server + FloorMs(KeyTTL(b, s, now)))
  }

  /** Reading a level back: a key that was never written or has expired reads as a full bucket. */
  function Parsed(b: Bucket, e: Option<Entry>, server: int, now: int): Level {
    if e.Some? && server < e.value.expires then e.value.AsLevel() else Level(b.capacity, now)
  }

  // ----- arithmetic of the refill -----

  lemma RefilledSplits(b: Bucket, x: int, y: int)
    requires b.refill > 0
    ensures Refilled(b, x + y) == Refilled(b, x) + Refilled(b, y)
  {
  }

  lemma RefilledMonotone(b: Bucket, x: int, y: int)
    requires b.refill > 0 && x <= y
    ensures Refilled(b, x) <= Refilled(b, y)
  {
    var r := b.refill as real;
    assert Refilled(b, y) - Refilled(b, x) == (y - x) as real / r;
    assert (y - x) as real / r >= 0.0;
  }

  lemma RefilledReaches(b: Bucket, span: int, amount: real)
    requires b.refill > 0
    ensures Refilled(b, span) >= amount <==> span as real >= TimeFor(b, amount)
  {
    var r := b.refill as real;
    assert Refilled(b, span) * r == span as real;
    if Refilled(b, span) >= amount {
      assert Refilled(b, span) * r >= amount * r;
    }
    if span as real >= amount * r {
      assert (Refilled(b, span) - amount) * r >= 0.0;
    }
  }

  lemma DivideBack(x: int, y: int, r: real)
    requires y > 0 && r == y as real
    ensures x as real / r * r == x as real
  {
  }

  /**
   A bucket made from a rate refills its count in a period, and more than that exactly when the count does not
   divide the period, because the time between tokens is cut to whole nanoseconds.
   */
  lemma RateRefillsItsCount(r: Rate, key: string)
    requires 0 < r.count <= r.period
    ensures var b := r.ToBucket(key);
            && b.refill > 0 && Refilled(b, r.period) >= r.count as real
            && (Refilled(b, r.period) == r.count as real <==> r.period % r.count == 0)
  {
    var b := r.ToBucket(key);
    var f := b.refill as real;
    assert r.period == b.refill * r.count + r.period % r.count;
    assert (b.refill * r.count) as real == f * r.count as real;
    DivideBack(r.period, b.refill, f);
    assert (Refilled(b, r.period) - r.count as real) * f == (r.period % r.count) as real;
  }

  lemma TruncateBounds(x: real)
    requires x >= 0.0
    ensures Truncate(x) as real <= x < Truncate(x) as real + 1.0 && Truncate(x) >= 0
  {
  }

  lemma TimeIsPositive(b: Bucket, tokens: real)
    requires b.refill > 0 && tokens >= 0.0
    ensures TimeFor(b, tokens) >= 0.0 && (tokens > 0.0 ==> TimeFor(b, tokens) > 0.0)
  {
  }

  // ----- waiting -----

  /** Admission after waiting d, written as a bound on d: the bucket has the need exactly from then on. */
  lemma AdmittedFrom(b: Bucket, s: Level, now: int, need: real, d: int)
    requires b.refill > 0 && need <= b.capacity && d >= 0
    requires TokensAt(b, s, now) < need
    ensures var base := if now < s.at then s.at else now;
            TokensAt(b, s, now + d) >= need
            <==> (now + d - base) as real >= TimeFor(b, need - TokensAt(b, s, now))
  {
    var base := if now < s.at then s.at else now;
    var have := TokensAt(b, s, now);
    TimeIsPositive(b, need - have);
    if now + d >= base {
      RefilledReaches(b, now + d - base, need - have);
      if now >= s.at {
        RefilledSplits(b, now - s.at, d);
      }
    }
  }

  /** Counting from an instant `gap` ahead, a cut wait is early by less than a nanosecond. */
  lemma CutWait(missing: real, gap: int, d: int)
    requires missing > 0.0
    ensures d < gap + Truncate(missing) ==> (d - gap) as real < missing
    ensures d >= gap + Truncate(missing) + 1 ==> (d - gap) as real >= missing
    ensures Truncate(missing) >= 0
  {
    TruncateBounds(missing);
  }

  /** The wait is the time until the bucket starts to refill, and the cut time its missing tokens take. */
  lemma WaitIsRefillTime(b: Bucket, s: Level, now: int, need: real)
    requires b.refill > 0 && need <= b.capacity
    ensures WaitFor(b, s, now, need) == (if now < s.at then s.at - now else 0) + Truncate(TimeFor(b, need - TokensAt(b, s, now)))
  {
  }

  /**
   The wait handed to a refused caller is tight to the nanosecond: no earlier retry would have been
   admitted, and from one nanosecond after it every retry is, unless another caller spends first.
   */
  lemma WaitIsTight(b: Bucket, s: Level, now: int, need: real, d: int)
    requires b.refill > 0 && need <= b.capacity && d >= 0
    requires TokensAt(b, s, now) < need
    ensures d < WaitFor(b, s, now, need) ==> TokensAt(b, s, now + d) < need
    ensures d >= WaitFor(b, s, now, need) + 1 ==> TokensAt(b, s, now + d) >= need
    ensures WaitFor(b, s, now, need) >= 0
  {
    var gap := if now < s.at then s.at - now else 0;
    var missing := TimeFor(b, need - TokensAt(b, s, now));
    WaitIsRefillTime(b, s, now, need);
    AdmittedFrom(b, s, now, need, d);
    TimeIsPositive(b, need - TokensAt(b, s, now));
    CutWait(missing, gap, d);
    TightWait(TokensAt(b, s, now + d), WaitFor(b, s, now, need), need, missing, gap, d);
  }

  /** A need beyond the capacity is never met; the caller is told to wait for one token. */
  lemma ImpossibleNeed(b: Bucket, s: Level, now: int, need: real, x: int)
    requires b.refill > 0 && s.tokens <= b.capacity < need
    ensures TokensAt(b, s, x) < need && WaitFor(b, s, now, need) == b.refill
  {
  }

  lemma TightWait(tokens: real, wait: int, need: real, missing: real, gap: int, d: int)
    requires tokens >= need <==> (d - gap) as real >= missing
    requires wait == gap + Truncate(missing) && Truncate(missing) >= 0 && gap >= 0
    requires d < gap + Truncate(missing) ==> (d - gap) as real < missing
    requires d >= gap + Truncate(missing) + 1 ==> (d - gap) as real >= missing
    ensures d < wait ==> tokens < need
    ensures d >= wait + 1 ==> tokens >= need
    ensures wait >= 0
  {
  }

  // ----- forgetting -----

  /**
   The skew assumption: a node's reading minus the server time of the command it drives lies in
   [low, low + width], for one low and one width for all nodes.
   */
  datatype Skew = Skew(low: int, width: int) {
    predicate Reads(server: int, now: int) {
      server + low <= now <= server + low + width
    }

    /** The margin on the key has room for the skew and for the two roundings of the expiry. */
    predicate WithinMargin() {
      0 <= width && width + MILLISECOND + 1 <= KEY_MARGIN
    }
  }

  /** By the time the key expires, every node reads an instant at which refill alone has filled the bucket. */
  ghost predicate FullAtExpiry(b: Bucket, e: Entry, skew: Skew)
    requires b.refill > 0
  {
    (e.expires + skew.low - e.at) as real >= TimeFor(b, b.capacity - Min(e.tokens, b.capacity))
  }

  lemma StoredIsFullAtExpiry(b: Bucket, s: Level, now: int, server: int, skew: Skew)
    requires b.refill > 0 && skew.WithinMargin() && skew.Reads(server, now)
    ensures FullAtExpiry(b, Stored(b, s, now, server), skew)
    ensures Stored(b, s, now, server).expires + skew.low > Stored(b, s, now, server).at
  {
    var missing := TimeFor(b, b.capacity - Min(s.tokens, b.capacity));
    TimeIsPositive(b, b.capacity - Min(s.tokens, b.capacity));
    TruncateBounds(missing);
  }

  /** Nor is it kept for long: no more than the margin after refill alone has filled it, by the writer's own clock. */
  lemma StoredIsForgottenInTime(b: Bucket, s: Level, now: int, server: int)
    requires b.refill > 0
    ensures var lead := if s.at > now then s.at - now else 0;
            (Stored(b, s, now, server).expires - server - lead - KEY_MARGIN) as real <= TimeFor(b, b.capacity - Min(s.tokens, b.capacity))
  {
    TimeIsPositive(b, b.capacity - Min(s.tokens, b.capacity));
    TruncateBounds(TimeFor(b, b.capacity - Min(s.tokens, b.capacity)));
  }

  /**
   Forgetting a bucket is unobservable: a reader that finds the key gone and takes the bucket as full
   sees the tokens, and after spending the level, it would have seen had the key never expired.
   */
  lemma ForgettingIsUnobservable(b: Bucket, e: Entry, skew: Skew, server: int, now: int, n: real)
    requires b.refill > 0 && FullAtExpiry(b, e, skew) && e.expires + skew.low > e.at
    requires skew.Reads(server, now)
    ensures var seen := Parsed(b, Some(e), server, now);
            && TokensAt(b, seen, now) == TokensAt(b, e.AsLevel(), now)
            && SpendN(b, seen, now, n) == SpendN(b, e.AsLevel(), now, n)
            && (now < seen.at <==> now < e.at)
  {
    if server >= e.expires {
      var missing := b.capacity - Min(e.tokens, b.capacity);
      assert (now - e.at) as real >= TimeFor(b, missing);
      RefilledReaches(b, now - e.at, missing);
      RefilledMonotone(b, 0, now - e.at);
    }
  }

  /** Write, wait, read: the round trip through the store, whatever happened to the key in between. */
  lemma ForgottenOrKept(b: Bucket, s: Level, wrote: int, wroteAt: int, read: int, readAt: int, skew: Skew, n: real)
    requires b.refill > 0 && skew.WithinMargin()
    requires skew.Reads(wroteAt, wrote) && skew.Reads(readAt, read)
    ensures var kept := Level(s.tokens, FloorMs(s.at));
            var seen := Parsed(b, Some(Stored(b, s, wrote, wroteAt)), readAt, read);
            TokensAt(b, seen, read) == TokensAt(b, kept, read) && SpendN(b, seen, read, n) == SpendN(b, kept, read, n)
  {
    StoredIsFullAtExpiry(b, s, wrote, wroteAt, skew);
    ForgettingIsUnobservable(b, Stored(b, s, wrote, wroteAt), skew, readAt, read, n);
  }

  // ----- after a 429 -----

  /** The level a resync writes: empty, and dated so that one token is back after the CA's delay. */
  function Resynced(b: Bucket, now: int, retryAfter: int): Level {
    Level(0.0, now + retryAfter - b.refill)
  }

  /**
   After a resync with delay d, a request is admitted at an instant if and only if that instant is no
   earlier than d after the resync, give or take the millisecond the store cuts from the instant.
   */
  lemma ResyncAdmitsExactlyAfterDelay(b: Bucket, now: int, retryAfter: int, server: int, later: int, readAt: int, skew: Skew)
    requires b.refill > 0 && b.capacity >= 1.0 && skew.WithinMargin()
    requires skew.Reads(server, now) && skew.Reads(readAt, later)
    ensures var entry := Stored(b, Resynced(b, now, retryAfter), now, server);
            var cut := now + retryAfter - b.refill - entry.at;
            && 0 <= cut < MILLISECOND
            && (TokensAt(b, Parsed(b, Some(entry), readAt, later), later) >= 1.0 <==> later >= now + retryAfter - cut)
  {
    var s := Resynced(b, now, retryAfter);
    var entry := Stored(b, s, now, server);
    ForgottenOrKept(b, s, now, server, later, readAt, skew, 1.0);
    if later >= entry.at {
      RefilledReaches(b, later - entry.at, 1.0);
    }
  }
}
