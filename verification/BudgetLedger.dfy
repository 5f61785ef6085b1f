/**
 The ledger of one bucket: how many tokens may have left it, given when it was first and last written.
 Sections of any kind on the bucket, whatever its key's expiry, keep the ledger.
 */
module BudgetLedger {
  import opened Basics
  import opened TokenBucket
  import opened Budget

  /** First and latest reading of the sections that wrote a bucket, and how many did. */
  datatype Hist = Hist(first: int, latest: int, writes: nat)

  /** A section's node reading, and the server times of its read and its write. */
  datatype Clock = Clock(now: int, read: int, write: int)

  /** A section may run with this clock: not before `from`, and with a reading within the skew. */
  predicate SectionAt(from: int, skew: Skew, at: Clock) {
    from <= at.read <= at.write && skew.Reads(at.read, at.now) && skew.Reads(at.write, at.now)
  }

  predicate HasKey(bs: seq<Bucket>, k: string) {
    exists i :: 0 <= i < |bs| && bs[i].key == k
  }

  ghost predicate Consistent(b: Bucket, bs: seq<Bucket>) {
    DistinctKeys(bs) && forall i :: 0 <= i < |bs| && bs[i].key == b.key ==> bs[i] == b
  }

  function Noted(h: Option<Hist>, now: int): Hist {
    if h.Some? then Hist(h.value.first, Max(h.value.latest, now), h.value.writes + 1) else Hist(now, now, 1)
  }

  function Note(hist: map<string, Hist>, bs: seq<Bucket>, now: int): map<string, Hist> {
    if bs == [] then hist
    else
      var rest := Note(hist, bs[..|bs| - 1], now);
      var k := bs[|bs| - 1].key;
      rest[k := Noted(Lookup(rest, k), now)]
  }

  lemma {:induction false} NoteAt(hist: map<string, Hist>, bs: seq<Bucket>, now: int, k: string)
    requires DistinctKeys(bs)
    ensures var after := Note(hist, bs, now);
            if HasKey(bs, k) then
              k in after && after[k] == Noted(Lookup(hist, k), now)
            else Lookup(after, k) == Lookup(hist, k)
  {
    if bs != [] {
      NoteAt(hist, bs[..|bs| - 1], now, k);
      assert HasKey(bs, k) <==> HasKey(bs[..|bs| - 1], k) || bs[|bs| - 1].key == k by {
        if bs[|bs| - 1].key == k { assert HasKey(bs, k); }
        if HasKey(bs[..|bs| - 1], k) {
          var j :| 0 <= j < |bs| - 1 && bs[..|bs| - 1][j].key == k;
          assert bs[j].key == k;
        }
        if HasKey(bs, k) && bs[|bs| - 1].key != k {
          var j :| 0 <= j < |bs| && bs[j].key == k;
          assert bs[..|bs| - 1][j].key == k;
        }
      }
    }
  }

  /** The allowance of a bucket: a full bucket, the refill since its first use, and a millisecond's refill for every write. */
  function Allowance(b: Bucket, h: Hist, at: int): real
    requires b.refill > 0
  {
    b.capacity + Refilled(b, at - h.first) + h.writes as real * Refilled(b, MILLISECOND)
  }

  /** Tokens left plus units used never exceed the allowance; the rest is what the next reader needs. */
  ghost predicate Account(b: Bucket, skew: Skew, e: Entry, h: Hist, used: real)
    requires b.refill > 0
  {
    && e.tokens <= b.capacity
    && e.at <= h.latest
    && e.tokens + used <= Allowance(b, h, e.at)
    && FullAtExpiry(b, e, skew) && e.expires + skew.low > e.at
  }

  /** The account of a bucket that is never overdrawn. */
  ghost predicate Ledger(b: Bucket, skew: Skew, e: Entry, h: Hist, used: real)
    requires b.refill > 0
  {
    0.0 <= e.tokens && Account(b, skew, e, h, used)
  }

  /** Moving the instant forward and cutting it to milliseconds never shrinks the allowance by more than a write adds. */
  lemma AllowanceGrows(b: Bucket, h: Hist, from: int, to: int, now: int)
    requires b.refill > 0 && from <= to
    ensures Allowance(b, Noted(Some(h), now), FloorMs(to)) >= Allowance(b, h, from) + Refilled(b, to - from)
  {
    var slack := Refilled(b, MILLISECOND);
    var cut := to - FloorMs(to);
    RefilledMonotone(b, cut, MILLISECOND);
    RefilledSplits(b, cut, FloorMs(to) - h.first);
    RefilledSplits(b, to - from, from - h.first);
    assert (h.writes + 1) as real * slack == h.writes as real * slack + slack;
  }

  lemma FirstAllowance(b: Bucket, now: int)
    requires b.refill > 0
    ensures Allowance(b, Hist(now, now, 1), FloorMs(now)) >= b.capacity
  {
    RefilledMonotone(b, now - FloorMs(now), MILLISECOND);
    RefilledSplits(b, now - FloorMs(now), FloorMs(now) - now);
    assert Refilled(b, 0) == 0.0;
  }

  /** One section on the bucket moves `delta` tokens into use (out of it, when negative) and keeps the account. */
  lemma MoveKeepsAccount(b: Bucket, skew: Skew, e: Option<Entry>, h: Option<Hist>, used: real, at: Clock, level: Level, delta: real)
    requires b.refill > 0 && skew.WithinMargin() && skew.Reads(at.read, at.now) && skew.Reads(at.write, at.now)
    requires e.Some? <==> h.Some?
    requires e.Some? ==> Account(b, skew, e.value, h.value, used)
    requires e.None? ==> used == 0.0
    requires level.tokens <= b.capacity
    requires var v := Parsed(b, e, at.read, at.now);
             && level.tokens + delta <= TokensAt(b, v, at.now)
             && level.at == if at.now < v.at then v.at else at.now
    ensures Account(b, skew, Stored(b, level, at.now, at.write), Noted(h, at.now), used + delta)
  {
    StoredIsFullAtExpiry(b, level, at.now, at.write, skew);
    if e.Some? {
      ForgettingIsUnobservable(b, e.value, skew, at.read, at.now, 0.0);
      AllowanceGrows(b, h.value, e.value.at, level.at, at.now);
      assert TokensAt(b, e.value.AsLevel(), at.now) <= e.value.tokens + Refilled(b, level.at - e.value.at) by {
        assert Refilled(b, 0) == 0.0;
      }
    } else {
      FirstAllowance(b, at.now);
    }
  }

  lemma MoveKeepsLedger(b: Bucket, skew: Skew, e: Option<Entry>, h: Option<Hist>, used: real, at: Clock, level: Level, delta: real)
    requires b.refill > 0 && skew.WithinMargin() && skew.Reads(at.read, at.now) && skew.Reads(at.write, at.now)
    requires e.Some? <==> h.Some?
    requires e.Some? ==> Ledger(b, skew, e.value, h.value, used)
    requires e.None? ==> used == 0.0
    requires 0.0 <= level.tokens <= b.capacity
    requires var v := Parsed(b, e, at.read, at.now);
             && level.tokens + delta <= TokensAt(b, v, at.now)
             && level.at == if at.now < v.at then v.at else at.now
    ensures Ledger(b, skew, Stored(b, level, at.now, at.write), Noted(h, at.now), used + delta)
  {
    MoveKeepsAccount(b, skew, e, h, used, at, level, delta);
  }

  lemma LedgerIsMonotone(b: Bucket, skew: Skew, e: Entry, h: Hist, used: real, less: real)
    requires b.refill > 0 && Ledger(b, skew, e, h, used) && less <= used
    ensures Ledger(b, skew, e, h, less)
  {
  }
}
