/**
 The Limiter of internal/limit: the budget operations as they run, reading the buckets one by one,
 deciding, and writing them back one by one. Each is proved to do what its section specification says.
 */
module Limiter {
  import opened Basics
  import opened TokenBucket
  import opened Budget

  /**
   Purging some nodes' expired members of a bucket never changes what the reading counts, then or at any later
   server time, on any bucket or node.
   */
  lemma {:induction false} PurgeKeepsCounts(inflight: Inflight, b: Bucket, live: seq<string>, c: Bucket, node: string, server: int, now: int, later: int)
    requires server <= later
    ensures Counted(Purged(inflight, b, live, server, now), c, node, later, now) == Counted(inflight, c, node, later, now)
  {
    if live != [] {
      PurgeKeepsCounts(inflight, b, live[..|live| - 1], c, node, server, now, later);
    }
  }

  lemma {:induction false} PurgeAllKeepsCounts(inflight: Inflight, bs: seq<Bucket>, live: seq<string>, c: Bucket, node: string, server: int, now: int, later: int)
    requires server <= later
    ensures Counted(PurgedAll(inflight, bs, live, server, now), c, node, later, now) == Counted(inflight, c, node, later, now)
  {
    if bs != [] {
      var last := |bs| - 1;
      PurgeAllKeepsCounts(inflight, bs[..last], live, c, node, server, now, later);
      PurgeKeepsCounts(PurgedAll(inflight, bs[..last], live, server, now), bs[last], live, c, node, server, now, later);
    }
  }

  lemma {:induction false} PurgeAllKeepsHeld(inflight: Inflight, bs: seq<Bucket>, live: seq<string>, c: Bucket, nodes: seq<string>, server: int, now: int)
    ensures HeldOn(PurgedAll(inflight, bs, live, server, now), c, nodes, server, now) == HeldOn(inflight, c, nodes, server, now)
  {
    if nodes != [] {
      PurgeAllKeepsHeld(inflight, bs, live, c, nodes[..|nodes| - 1], server, now);
      PurgeAllKeepsCounts(inflight, bs, live, c, nodes[|nodes| - 1], server, now, server);
    }
  }

  lemma OneMorePurged(inflight: Inflight, bs: seq<Bucket>, i: nat, live: seq<string>, server: int, now: int)
    requires i < |bs|
    ensures PurgedAll(inflight, bs[..i + 1], live, server, now) == Purged(PurgedAll(inflight, bs[..i], live, server, now), bs[i], live, server, now)
  {
    assert bs[..i + 1][..i] == bs[..i];
  }

  /** The longest wait of the buckets that cannot afford one more, held places counted. */
  method LongestWait(bs: seq<Bucket>, vs: seq<Level>, held: seq<nat>, now: int, least: int) returns (wait: int)
    requires |bs| == |vs| == |held| && least > 0
    ensures wait == WaitOver(bs, vs, held, now, least)
  {
    wait := 0;
    for i := 0 to |bs|
      invariant wait == WaitOver(bs[..i], vs[..i], held[..i], now, least)
    {
      if TokensAt(bs[i], vs[i], now) - held[i] as real < 1.0 {
        wait := Max(Max(wait, WaitFor(bs[i], vs[i], now, held[i] as real + 1.0)), least);
      }
      assert bs[..i + 1][..i] == bs[..i] && vs[..i + 1][..i] == vs[..i] && held[..i + 1][..i] == held[..i];
    }
    assert bs[..|bs|] == bs && vs[..|bs|] == vs && held[..|bs|] == held;
  }

  class Limiter {
    var levels: Levels
    var inflight: Inflight

    constructor ()
      ensures levels == map[] && inflight == map[]
    {
      levels, inflight := map[], map[];
    }

    method ReadBuckets(bs: seq<Bucket>, now: int, server: int) returns (vs: seq<Level>)
      ensures vs == Views(levels, bs, server, now)
    {
      vs := [];
      for i := 0 to |bs|
        invariant |vs| == i
        invariant forall j :: 0 <= j < i ==> vs[j] == View(levels, bs[j], server, now)
      {
        vs := vs + [View(levels, bs[i], server, now)];
      }
    }

    /** Counts one bucket's in-flight orders of the live nodes, dropping the expired ones on the way. */
    method CountOn(b: Bucket, live: seq<string>, now: int, server: int) returns (count: nat)
      modifies this`inflight
      ensures count == HeldOn(old(inflight), b, live, server, now) && inflight == Purged(old(inflight), b, live, server, now)
    {
      count := 0;
      for n := 0 to |live|
        invariant inflight == Purged(old(inflight), b, live[..n], server, now)
        invariant count == HeldOn(old(inflight), b, live[..n], server, now)
      {
        var k := (b.key, live[n]);
        PurgeKeepsCounts(old(inflight), b, live[..n], b, live[n], server, now, server);
        if k in inflight {
          inflight := SetMembers(inflight, k, Counted(inflight, b, k.1, server, now), inflight[k].expires);
        }
        assert live[..n + 1][..n] == live[..n];
        PurgeKeepsCounts(old(inflight), b, live[..n + 1], b, live[n], server, now, server);
        count := count + |Counted(inflight, b, live[n], server, now)|;
      }
      assert live[..|live|] == live;
    }

    /** Counts the in-flight orders of the live nodes on every bucket. */
    method InflightCounts(bs: seq<Bucket>, live: seq<string>, now: int, server: int) returns (held: seq<nat>)
      modifies this`inflight
      ensures held == HeldCounts(old(inflight), bs, live, server, now)
      ensures inflight == PurgedAll(old(inflight), bs, live, server, now)
    {
      held := [];
      for i := 0 to |bs|
        invariant |held| == i
        invariant forall j :: 0 <= j < i ==> held[j] == HeldOn(old(inflight), bs[j], live, server, now)
        invariant inflight == PurgedAll(old(inflight), bs[..i], live, server, now)
      {
        PurgeAllKeepsHeld(old(inflight), bs[..i], live, bs[i], live, server, now);
        OneMorePurged(old(inflight), bs, i, live, server, now);
        var count := CountOn(bs[i], live, now, server);
        held := held + [count];
      }
      assert bs[..|bs|] == bs;
    }

    method HoldEach(bs: seq<Bucket>, node: string, member: string, deadline: int, now: int, server: int)
      modifies this`inflight
      ensures inflight == HoldAll(old(inflight), bs, node, member, deadline, server, now)
    {
      for i := 0 to |bs|
        invariant inflight == HoldAll(old(inflight), bs[..i], node, member, deadline, server, now)
      {
        inflight := Hold(inflight, bs[i], node, member, deadline, server, now);
        assert bs[..i + 1][..i] == bs[..i];
      }
      assert bs[..|bs|] == bs;
    }

    method ReserveACME(bs: seq<Bucket>, node: string, member: string, deadline: int, live: seq<string>,
                       now: int, read: int, count: int, write: int)
      returns (ok: bool, wait: int)
      modifies this`inflight
      ensures (ok, wait, inflight) == Reserve(levels, old(inflight), bs, node, member, deadline, live, now, read, count, write)
    {
      if |bs| == 0 {
        return true, 0;
      }
      var vs := ReadBuckets(bs, now, read);
      var held := InflightCounts(bs, live, now, count);
      wait := LongestWait(bs, vs, held, now, SECOND);
      if wait > 0 {
        return false, wait;
      }
      HoldEach(bs, node, member, deadline, now, write);
      ok := true;
    }

    method CommitACME(b: Bucket, node: string, member: string, now: int, read: int, write: int)
      modifies this
      ensures levels == Commit(old(levels), b, now, read, write)
      ensures inflight == Drop(old(inflight), b, node, member, write)
    {
      var vs := ReadBuckets([b], now, read);
      levels := levels[b.key := Stored(b, SpendN(b, vs[0], now, 1.0), now, write)];
      inflight := Drop(inflight, b, node, member, write);
    }

    method ReleaseACME(bs: seq<Bucket>, node: string, member: string, server: int)
      modifies this`inflight
      ensures inflight == DropAll(old(inflight), bs, node, member, server)
    {
      for i := 0 to |bs|
        invariant inflight == DropAll(old(inflight), bs[..i], node, member, server)
      {
        inflight := Drop(inflight, bs[i], node, member, server);
        assert bs[..i + 1][..i] == bs[..i];
      }
      assert bs[..|bs|] == bs;
    }

    method SpendEach(bs: seq<Bucket>, vs: seq<Level>, now: int, write: int)
      requires |vs| == |bs|
      modifies this`levels
      ensures levels == SpendAll(old(levels), bs, vs, now, write)
    {
      for i := 0 to |bs|
        invariant levels == SpendAll(old(levels), bs[..i], vs[..i], now, write)
      {
        levels := levels[bs[i].key := Stored(bs[i], SpendN(bs[i], vs[i], now, 1.0), now, write)];
        assert bs[..i + 1][..i] == bs[..i] && vs[..i + 1][..i] == vs[..i];
      }
      assert bs[..|bs|] == bs && vs[..|bs|] == vs;
    }

    method TakeACME(bs: seq<Bucket>, now: int, read: int, write: int) returns (wait: int)
      modifies this`levels
      ensures (wait, levels) == Take(old(levels), bs, now, read, write)
    {
      if |bs| == 0 {
        return 0;
      }
      var vs := ReadBuckets(bs, now, read);
      wait := LongestWait(bs, vs, Zeros(|bs|), now, MILLISECOND);
      if wait == 0 {
        SpendEach(bs, vs, now, write);
      }
    }

    method PrepayACME(b: Bucket, n: int, now: int, read: int, write: int) returns (count: int, wait: int)
      modifies this`levels
      ensures (count, wait, levels) == Prepay(old(levels), b, n, now, read, write)
    {
      var m := if n <= Truncate(b.capacity) then n else Truncate(b.capacity);
      if m <= 0 {
        return 0, 0;
      }
      var vs := ReadBuckets([b], now, read);
      if TokensAt(b, vs[0], now) < m as real {
        return 0, Max(WaitFor(b, vs[0], now, m as real), MILLISECOND);
      }
      levels := levels[b.key := Stored(b, SpendN(b, vs[0], now, m as real), now, write)];
      return m, 0;
    }

    method RefundACME(b: Bucket, n: int, now: int, read: int, write: int)
      modifies this`levels
      ensures levels == Refund(old(levels), b, n, now, read, write)
    {
      if n <= 0 {
        return;
      }
      var vs := ReadBuckets([b], now, read);
      if now < vs[0].at {
        return;
      }
      levels := levels[b.key := Stored(b, Level(Min(b.capacity, TokensAt(b, vs[0], now) + n as real), now), now, write)];
    }

    method ResyncACME(bs: seq<Bucket>, retryAfter: int, now: int, write: int)
      modifies this`levels
      ensures levels == ResyncAll(old(levels), bs, retryAfter, now, write)
    {
      for i := 0 to |bs|
        invariant levels == ResyncAll(old(levels), bs[..i], retryAfter, now, write)
      {
        levels := levels[bs[i].key := Stored(bs[i], Resynced(bs[i], now, retryAfter), now, write)];
        assert bs[..i + 1][..i] == bs[..i];
      }
      assert bs[..|bs|] == bs;
    }
  }
}
