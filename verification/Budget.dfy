/**
 The ACME budget operations of internal/limit/acme_budget.go, each as the critical section it runs
 under the budget lock. The specification functions say what a section does to the store; the class
 performs the sections in place and is proved to do exactly that.
 */
module Budget {
  import opened Basics
  import opened TokenBucket

  /** Bucket key to stored level. */
  type Levels = map<string, Entry>

  /** One node's in-flight orders on one bucket: member to deadline in milliseconds, and the key's expiry. */
  datatype Holds = Holds(members: map<string, int>, expires: int)

  /** (bucket key, node) to that node's in-flight orders. */
  type Inflight = map<(string, string), Holds>

  const INFLIGHT_MARGIN: int := 60 * SECOND

  function Lookup<K, V>(m: map<K, V>, k: K): Option<V> {
    if k in m then Some(m[k]) else None
  }

  function View(levels: Levels, b: Bucket, server: int, now: int): Level {
    Parsed(b, Lookup(levels, b.key), server, now)
  }

  function Views(levels: Levels, bs: seq<Bucket>, server: int, now: int): (vs: seq<Level>)
    ensures |vs| == |bs|
    ensures forall i :: 0 <= i < |bs| ==> vs[i] == View(levels, bs[i], server, now)
  {
    seq(|bs|, i requires 0 <= i < |bs| => View(levels, bs[i], server, now))
  }

  predicate DistinctKeys(bs: seq<Bucket>) {
    forall i, j :: 0 <= i < j < |bs| ==> bs[i].key != bs[j].key
  }

  // ----- the wait of a refused caller -----

  /** The longest wait any of the buckets asks for; zero when every bucket can afford one more. */
  function WaitOver(bs: seq<Bucket>, vs: seq<Level>, held: seq<nat>, now: int, least: int): (wait: int)
    requires |bs| == |vs| == |held| && least > 0
    ensures wait >= 0
    ensures wait == 0 <==> forall i :: 0 <= i < |bs| ==> TokensAt(bs[i], vs[i], now) - held[i] as real >= 1.0
    ensures wait > 0 ==> wait >= least
  {
    if bs == [] then 0
    else
      var last := |bs| - 1;
      var wait := WaitOver(bs[..last], vs[..last], held[..last], now, least);
      if TokensAt(bs[last], vs[last], now) - held[last] as real < 1.0
      then Max(Max(wait, WaitFor(bs[last], vs[last], now, held[last] as real + 1.0)), least)
      else wait
  }

  predicate Refuses(b: Bucket, v: Level, held: nat, now: int) {
    TokensAt(b, v, now) - held as real < 1.0
  }

  /** The wait is no shorter than that of any bucket that refuses, and is that of one of them or the least wait there is. */
  lemma {:induction false} WaitIsTheLongest(bs: seq<Bucket>, vs: seq<Level>, held: seq<nat>, now: int, least: int)
    requires |bs| == |vs| == |held| && least > 0
    ensures var wait := WaitOver(bs, vs, held, now, least);
            && (forall i :: 0 <= i < |bs| && Refuses(bs[i], vs[i], held[i], now) ==> wait >= WaitFor(bs[i], vs[i], now, held[i] as real + 1.0))
            && (wait <= least || exists i :: 0 <= i < |bs| && Refuses(bs[i], vs[i], held[i], now) && wait == WaitFor(bs[i], vs[i], now, held[i] as real + 1.0))
  {
    hide TokensAt, WaitFor;
    if bs != [] {
      var last := |bs| - 1;
      WaitIsTheLongest(bs[..last], vs[..last], held[..last], now, least);
      assert forall i :: 0 <= i < last ==> bs[..last][i] == bs[i] && vs[..last][i] == vs[i] && held[..last][i] == held[i];
      var wait := WaitOver(bs, vs, held, now, least);
      if Refuses(bs[last], vs[last], held[last], now) && wait == WaitFor(bs[last], vs[last], now, held[last] as real + 1.0) {
      } else if wait > least {
        assert wait == WaitOver(bs[..last], vs[..last], held[..last], now, least);
        var i :| 0 <= i < last && Refuses(bs[..last][i], vs[..last][i], held[..last][i], now)
                 && wait == WaitFor(bs[..last][i], vs[..last][i], now, held[..last][i] as real + 1.0);
        assert Refuses(bs[i], vs[i], held[i], now);
      }
    }
  }

  lemma TokensStay(b: Bucket, v: Level, now: int, d: nat, need: real)
    requires b.refill > 0 && need <= b.capacity && TokensAt(b, v, now) >= need
    ensures TokensAt(b, v, now + d) >= need
  {
    if now >= v.at {
      RefilledMonotone(b, now - v.at, now - v.at + d);
    } else if now + d >= v.at {
      RefilledMonotone(b, 0, now + d - v.at);
      assert Refilled(b, 0) == 0.0;
    }
  }

  /**
   What the wait means to a caller that was refused: with nothing else happening, every retry from a nanosecond after it
   is admitted by all buckets, and unless it is the least wait there is, no retry before it is.
   */
  lemma WaitAdmitsExactly(bs: seq<Bucket>, vs: seq<Level>, held: seq<nat>, now: int, least: int, d: nat)
    requires |bs| == |vs| == |held| && least > 0
    requires forall i :: 0 <= i < |bs| ==> bs[i].refill > 0 && held[i] as real + 1.0 <= bs[i].capacity
    ensures var wait := WaitOver(bs, vs, held, now, least);
            && (d > wait ==> forall i :: 0 <= i < |bs| ==> !Refuses(bs[i], vs[i], held[i], now + d))
            && (d < wait && wait > least ==> exists i :: 0 <= i < |bs| && Refuses(bs[i], vs[i], held[i], now + d))
  {
    hide TokensAt, WaitFor, WaitOver;
    WaitIsTheLongest(bs, vs, held, now, least);
    var wait := WaitOver(bs, vs, held, now, least);
    forall i | 0 <= i < |bs| && d > wait
      ensures !Refuses(bs[i], vs[i], held[i], now + d)
    {
      if Refuses(bs[i], vs[i], held[i], now) {
        WaitIsTight(bs[i], vs[i], now, held[i] as real + 1.0, d);
      } else {
        TokensStay(bs[i], vs[i], now, d, held[i] as real + 1.0);
      }
    }
    if d < wait && wait > least {
      var i :| 0 <= i < |bs| && Refuses(bs[i], vs[i], held[i], now) && wait == WaitFor(bs[i], vs[i], now, held[i] as real + 1.0);
      WaitIsTight(bs[i], vs[i], now, held[i] as real + 1.0, d);
    }
  }

  function Zeros(n: nat): (z: seq<nat>)
    ensures |z| == n && forall i :: 0 <= i < n ==> z[i] == 0
  {
    seq(n, i => 0)
  }

  // ----- spending one token from every bucket -----

  function SpendAll(levels: Levels, bs: seq<Bucket>, vs: seq<Level>, now: int, server: int): Levels
    requires |bs| == |vs|
  {
    if bs == [] then levels
    else
      var last := |bs| - 1;
      SpendAll(levels, bs[..last], vs[..last], now, server)[
        bs[last].key := Stored(bs[last], SpendN(bs[last], vs[last], now, 1.0), now, server)]
  }

  lemma {:induction false} SpendAllAt(levels: Levels, bs: seq<Bucket>, vs: seq<Level>, now: int, server: int, k: string)
    requires |bs| == |vs| && DistinctKeys(bs)
    ensures var after := SpendAll(levels, bs, vs, now, server);
            && (forall i :: 0 <= i < |bs| && bs[i].key == k ==>
                  k in after && after[k] == Stored(bs[i], SpendN(bs[i], vs[i], now, 1.0), now, server))
            && ((forall i :: 0 <= i < |bs| ==> bs[i].key != k) ==> Lookup(after, k) == Lookup(levels, k))
  {
    if bs != [] {
      var last := |bs| - 1;
      SpendAllAt(levels, bs[..last], vs[..last], now, server, k);
      assert forall i :: 0 <= i < last ==> bs[..last][i] == bs[i] && vs[..last][i] == vs[i];
    }
  }

  // ----- sections on the request buckets -----

  /** TakeACME: refuse and leave everything, or charge one token to every bucket. `read` and `write` are server times. */
  function Take(levels: Levels, bs: seq<Bucket>, now: int, read: int, write: int): (r: (int, Levels))
    ensures r.0 > 0 ==> r.1 == levels
    ensures r.0 <= 0 <==> forall i :: 0 <= i < |bs| ==> TokensAt(bs[i], View(levels, bs[i], read, now), now) >= 1.0
  {
    var vs := Views(levels, bs, read, now);
    var wait := WaitOver(bs, vs, Zeros(|bs|), now, MILLISECOND);
    assert forall i :: 0 <= i < |bs| ==> TokensAt(bs[i], vs[i], now) - Zeros(|bs|)[i] as real == TokensAt(bs[i], vs[i], now);
    if wait > 0 then (wait, levels) else (0, SpendAll(levels, bs, vs, now, write))
  }

  function PrepayCount(b: Bucket, n: int): int {
    if n <= Truncate(b.capacity) then n else Truncate(b.capacity)
  }

  /** PrepayACME: set n tokens aside at once, or none. */
  function Prepay(levels: Levels, b: Bucket, n: int, now: int, read: int, write: int): (r: (int, int, Levels))
    ensures r.0 >= 0 && r.1 >= 0 && (r.0 == 0 ==> r.2 == levels)
    ensures r.0 > 0 <==> PrepayCount(b, n) > 0 && TokensAt(b, View(levels, b, read, now), now) >= PrepayCount(b, n) as real
    ensures r.0 > 0 ==> r.0 == PrepayCount(b, n)
    ensures r.1 > 0 <==> PrepayCount(b, n) > 0 && TokensAt(b, View(levels, b, read, now), now) < PrepayCount(b, n) as real
  {
    var count := PrepayCount(b, n);
    var v := View(levels, b, read, now);
    if count <= 0 then (0, 0, levels)
    else if TokensAt(b, v, now) < count as real then (0, Max(WaitFor(b, v, now, count as real), MILLISECOND), levels)
    else (count, 0, levels[b.key := Stored(b, SpendN(b, v, now, count as real), now, write)])
  }

  /** RefundACME: credit n tokens up to the capacity, unless the bucket is dated into the future. */
  function Refund(levels: Levels, b: Bucket, n: int, now: int, read: int, write: int): Levels {
    var v := View(levels, b, read, now);
    if n <= 0 || now < v.at then levels
    else levels[b.key := Stored(b, Level(Min(b.capacity, TokensAt(b, v, now) + n as real), now), now, write)]
  }

  /** Writing a level of at least `tokens` and at most `more` beyond, dated now: what a reader at x finds of it. */
  lemma WrittenLevel(b: Bucket, level: real, tokens: real, more: int, now: int, x: int)
    requires b.refill > 0 && now <= x && 0 <= more && tokens <= level <= tokens + Refilled(b, more) && tokens <= b.capacity
    ensures var base := TokensAt(b, Level(tokens, now), x);
            base <= TokensAt(b, Level(level, FloorMs(now)), x) <= base + Refilled(b, more + MILLISECOND)
  {
    var cut := now - FloorMs(now);
    RefilledSplits(b, cut, x - now);
    RefilledSplits(b, more, MILLISECOND);
    RefilledMonotone(b, 0, cut);
    RefilledMonotone(b, cut, MILLISECOND);
    RefilledMonotone(b, 0, more);
    RefilledMonotone(b, 0, x - now);
    assert Refilled(b, 0) == 0.0;
  }

  /** Reading twice is reading once. */
  lemma LaterTokens(b: Bucket, v: Level, now: int, x: int)
    requires b.refill > 0 && v.at <= now <= x && v.tokens <= b.capacity
    ensures TokensAt(b, v, x) == TokensAt(b, Level(TokensAt(b, v, now), now), x) && TokensAt(b, v, now) <= b.capacity
  {
    RefilledSplits(b, now - v.at, x - now);
    RefilledMonotone(b, 0, x - now);
    RefilledMonotone(b, 0, now - v.at);
    assert Refilled(b, 0) == 0.0;
  }

  /** What a prepayment leaves to a reader at the same reading. */
  lemma PrepaidLevel(levels: Levels, b: Bucket, n: int, now: int, read: int, write: int, again: int, skew: Skew)
    requires b.refill > 0 && skew.WithinMargin() && skew.Reads(read, now) && skew.Reads(write, now) && skew.Reads(again, now)
    requires var v := View(levels, b, read, now); v.at <= now && v.tokens <= b.capacity
    requires Prepay(levels, b, n, now, read, write).0 > 0
    ensures var before := TokensAt(b, View(levels, b, read, now), now);
            var (count, _, paid) := Prepay(levels, b, n, now, read, write);
            var seen := View(paid, b, again, now);
            seen.at <= now && before - count as real <= TokensAt(b, seen, now) <= before - count as real + Refilled(b, MILLISECOND)
  {
    var v := View(levels, b, read, now);
    var (count, _, paid) := Prepay(levels, b, n, now, read, write);
    var spent := SpendN(b, v, now, count as real);
    StoredIsFullAtExpiry(b, spent, now, write, skew);
    ForgettingIsUnobservable(b, paid[b.key], skew, again, now, 0.0);
    LaterTokens(b, v, now, now);
    WrittenLevel(b, spent.tokens, spent.tokens, 0, now, now);
    assert Refilled(b, 0) == 0.0;
  }

  /**
   Prepaying and refunding: what is set aside and given back at the same reading is there again. A later reader finds what
   it would have found, and at most a millisecond's refill more for the cut of each of the two writes.
   */
  lemma RefundUndoesPrepay(levels: Levels, b: Bucket, n: int, now: int, read: int, write: int, again: int, last: int, skew: Skew, x: int)
    requires b.refill > 0 && skew.WithinMargin() && skew.Reads(read, now) && skew.Reads(write, now) && skew.Reads(again, now)
    requires var v := View(levels, b, read, now); v.at <= now <= x && v.tokens <= b.capacity
    requires Prepay(levels, b, n, now, read, write).0 > 0
    ensures var v := View(levels, b, read, now);
            var (count, _, paid) := Prepay(levels, b, n, now, read, write);
            var after := Refund(paid, b, count, now, again, last);
            && b.key in after
            && TokensAt(b, v, x) <= TokensAt(b, after[b.key].AsLevel(), x) <= TokensAt(b, v, x) + Refilled(b, 2 * MILLISECOND)
  {
    hide Prepay, Parsed;
    var v := View(levels, b, read, now);
    var (count, _, paid) := Prepay(levels, b, n, now, read, write);
    var seen := View(paid, b, again, now);
    PrepaidLevel(levels, b, n, now, read, write, again, skew);
    LaterTokens(b, v, now, x);
    RefilledMonotone(b, 0, MILLISECOND);
    assert Refilled(b, 0) == 0.0;
    WrittenLevel(b, Min(b.capacity, TokensAt(b, seen, now) + count as real), TokensAt(b, v, now), MILLISECOND, now, x);
  }

  function ResyncAll(levels: Levels, bs: seq<Bucket>, retryAfter: int, now: int, write: int): Levels {
    if bs == [] then levels
    else
      var last := bs[|bs| - 1];
      ResyncAll(levels, bs[..|bs| - 1], retryAfter, now, write)[
        last.key := Stored(last, Resynced(last, now, retryAfter), now, write)]
  }

  lemma {:induction false} ResyncAllAt(levels: Levels, bs: seq<Bucket>, retryAfter: int, now: int, write: int, k: string)
    requires DistinctKeys(bs)
    ensures var after := ResyncAll(levels, bs, retryAfter, now, write);
            && (forall i :: 0 <= i < |bs| && bs[i].key == k ==> k in after && after[k] == Stored(bs[i], Resynced(bs[i], now, retryAfter), now, write))
            && ((forall i :: 0 <= i < |bs| ==> bs[i].key != k) ==> Lookup(after, k) == Lookup(levels, k))
  {
    if bs != [] {
      var last := |bs| - 1;
      ResyncAllAt(levels, bs[..last], retryAfter, now, write, k);
      assert forall i :: 0 <= i < last ==> bs[..last][i] == bs[i];
    }
  }

  /** A refused charge is told a wait that is right: it admits from a nanosecond later on, and not before unless it is the least. */
  lemma TakeWaitIsRight(levels: Levels, bs: seq<Bucket>, now: int, read: int, write: int, d: nat)
    requires forall i :: 0 <= i < |bs| ==> bs[i].refill > 0 && bs[i].capacity >= 1.0
    requires Take(levels, bs, now, read, write).0 > 0
    ensures var wait, vs := Take(levels, bs, now, read, write).0, Views(levels, bs, read, now);
            && wait >= MILLISECOND
            && (d > wait ==> forall i :: 0 <= i < |bs| ==> !Refuses(bs[i], vs[i], 0, now + d))
            && (d < wait && wait > MILLISECOND ==> exists i :: 0 <= i < |bs| && Refuses(bs[i], vs[i], 0, now + d))
  {
    hide Refuses;
    var vs, zeros := Views(levels, bs, read, now), Zeros(|bs|);
    WaitAdmitsExactly(bs, vs, zeros, now, MILLISECOND, d);
  }

  /** The same of a refused prepayment, for its whole count. */
  lemma PrepayWaitIsRight(levels: Levels, b: Bucket, n: int, now: int, read: int, write: int, d: nat)
    requires b.refill > 0 && b.capacity >= 0.0 && Prepay(levels, b, n, now, read, write).1 > 0
    ensures var wait, v, count := Prepay(levels, b, n, now, read, write).1, View(levels, b, read, now), PrepayCount(b, n) as real;
            && wait >= MILLISECOND
            && (d > wait ==> TokensAt(b, v, now + d) >= count)
            && (d < wait && wait > MILLISECOND ==> TokensAt(b, v, now + d) < count)
  {
    TruncateBounds(b.capacity);
    WaitIsTight(b, View(levels, b, read, now), now, PrepayCount(b, n) as real, d);
  }

  // ----- sections on the order buckets -----

  /** In-flight members a reading still counts: their key is there and their deadline has not passed. */
  function Counted(inflight: Inflight, b: Bucket, node: string, server: int, now: int): map<string, int> {
    var k := (b.key, node);
    if k in inflight && server < inflight[k].expires
    then map m | m in inflight[k].members && inflight[k].members[m] > now / MILLISECOND :: inflight[k].members[m]
    else map[]
  }

  function HeldOn(inflight: Inflight, b: Bucket, live: seq<string>, server: int, now: int): nat {
    if live == [] then 0
    else HeldOn(inflight, b, live[..|live| - 1], server, now) + |Counted(inflight, b, live[|live| - 1], server, now)|
  }

  /** Removing expired members empties, and so deletes, a key that has no other. */
  function SetMembers(inflight: Inflight, k: (string, string), members: map<string, int>, expires: int): Inflight {
    if members == map[] then inflight - {k} else inflight[k := Holds(members, expires)]
  }

  function Purged(inflight: Inflight, b: Bucket, live: seq<string>, server: int, now: int): Inflight {
    if live == [] then inflight
    else
      var rest := Purged(inflight, b, live[..|live| - 1], server, now);
      var k := (b.key, live[|live| - 1]);
      if k in rest then SetMembers(rest, k, Counted(rest, b, k.1, server, now), rest[k].expires) else rest
  }

  function PurgedAll(inflight: Inflight, bs: seq<Bucket>, live: seq<string>, server: int, now: int): Inflight {
    if bs == [] then inflight
    else Purged(PurgedAll(inflight, bs[..|bs| - 1], live, server, now), bs[|bs| - 1], live, server, now)
  }

  /** EXPIRE takes whole seconds and rounds down, but never to zero. */
  function FloorSec(d: int): int {
    if 0 < d < SECOND then SECOND else d / SECOND * SECOND
  }

  function Hold(inflight: Inflight, b: Bucket, node: string, member: string, deadline: int, server: int, now: int): Inflight {
    var k := (b.key, node);
    var ttl := server + FloorSec(deadline - now + INFLIGHT_MARGIN);
    if k in inflight && server < inflight[k].expires
    then inflight[k := Holds(inflight[k].members[member := deadline / MILLISECOND], Max(inflight[k].expires, ttl))]
    else inflight[k := Holds(map[member := deadline / MILLISECOND], ttl)]
  }

  function HoldAll(inflight: Inflight, bs: seq<Bucket>, node: string, member: string, deadline: int, server: int, now: int): Inflight {
    if bs == [] then inflight
    else Hold(HoldAll(inflight, bs[..|bs| - 1], node, member, deadline, server, now), bs[|bs| - 1], node, member, deadline, server, now)
  }

  function HeldCounts(inflight: Inflight, bs: seq<Bucket>, live: seq<string>, server: int, now: int): (held: seq<nat>)
    ensures |held| == |bs|
    ensures forall i :: 0 <= i < |bs| ==> held[i] == HeldOn(inflight, bs[i], live, server, now)
  {
    seq(|bs|, i requires 0 <= i < |bs| => HeldOn(inflight, bs[i], live, server, now))
  }

  /**
   ReserveACME: hold a place on every bucket, or on none. Expired members of the live nodes go either way.
   `read`, `count` and `write` are the server times of its three pipelines.
   */
  function Reserve(levels: Levels, inflight: Inflight, bs: seq<Bucket>, node: string, member: string, deadline: int,
                   live: seq<string>, now: int, read: int, count: int, write: int): (r: (bool, int, Inflight))
    ensures r.0 <==> forall i :: 0 <= i < |bs| ==>
              TokensAt(bs[i], View(levels, bs[i], read, now), now) - HeldOn(inflight, bs[i], live, count, now) as real >= 1.0
  {
    if bs == [] then (true, 0, inflight)
    else
      var held := HeldCounts(inflight, bs, live, count, now);
      var wait := WaitOver(bs, Views(levels, bs, read, now), held, now, SECOND);
      var purged := PurgedAll(inflight, bs, live, count, now);
      if wait > 0 then (false, wait, purged)
      else (true, 0, HoldAll(purged, bs, node, member, deadline, write, now))
  }

  /** The same of a refused reservation, with the places held then. */
  lemma ReserveWaitIsRight(levels: Levels, inflight: Inflight, bs: seq<Bucket>, node: string, member: string, deadline: int,
                           live: seq<string>, now: int, read: int, count: int, write: int, d: nat)
    requires !Reserve(levels, inflight, bs, node, member, deadline, live, now, read, count, write).0
    requires forall i :: 0 <= i < |bs| ==> bs[i].refill > 0 && HeldOn(inflight, bs[i], live, count, now) as real + 1.0 <= bs[i].capacity
    ensures var wait := Reserve(levels, inflight, bs, node, member, deadline, live, now, read, count, write).1;
            var vs, held := Views(levels, bs, read, now), HeldCounts(inflight, bs, live, count, now);
            && wait >= SECOND
            && (d > wait ==> forall i :: 0 <= i < |bs| ==> !Refuses(bs[i], vs[i], held[i], now + d))
            && (d < wait && wait > SECOND ==> exists i :: 0 <= i < |bs| && Refuses(bs[i], vs[i], held[i], now + d))
  {
    hide Refuses, TokensAt;
    WaitAdmitsExactly(bs, Views(levels, bs, read, now), HeldCounts(inflight, bs, live, count, now), now, SECOND, d);
  }

  function Drop(inflight: Inflight, b: Bucket, node: string, member: string, server: int): Inflight {
    var k := (b.key, node);
    if k in inflight then
      SetMembers(inflight, k, if server < inflight[k].expires then inflight[k].members - {member} else map[], inflight[k].expires)
    else inflight
  }

  function DropAll(inflight: Inflight, bs: seq<Bucket>, node: string, member: string, server: int): Inflight {
    if bs == [] then inflight
    else Drop(DropAll(inflight, bs[..|bs| - 1], node, member, server), bs[|bs| - 1], node, member, server)
  }

  /** CommitACME on the levels: one token is spent whatever is left. */
  function Commit(levels: Levels, b: Bucket, now: int, read: int, write: int): Levels {
    levels[b.key := Stored(b, SpendN(b, View(levels, b, read, now), now, 1.0), now, write)]
  }
}
