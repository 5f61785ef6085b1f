/**
 The places that orders hold on the order buckets: what counting, sweeping, holding and dropping do to them,
 at whatever server times the pipelines of a section reach the store.
 */
module InflightHolds {
  import opened Basics
  import opened TokenBucket
  import opened Budget
  import opened BudgetLedger
  import L = Limiter

  /** The (node, member) pairs whose place on the bucket a section still counts. */
  function HeldPairs(inflight: Inflight, b: Bucket, server: int, now: int): set<(string, string)> {
    set k, m | k in inflight && k.0 == b.key && m in Counted(inflight, b, k.1, server, now) :: (k.1, m)
  }

  /** A place is counted exactly while its key is there and its deadline has not passed. */
  lemma HeldExactly(inflight: Inflight, b: Bucket, server: int, now: int, p: (string, string))
    ensures p in HeldPairs(inflight, b, server, now) <==>
            var k := (b.key, p.0); k in inflight && server < inflight[k].expires && p.1 in inflight[k].members && inflight[k].members[p.1] > now / MILLISECOND
  {
    assert p.1 in Counted(inflight, b, p.0, server, now) <==>
           var k := (b.key, p.0); k in inflight && server < inflight[k].expires && p.1 in inflight[k].members && inflight[k].members[p.1] > now / MILLISECOND;
  }

  lemma {:induction false} PairsCount(node: string, members: set<string>)
    ensures |set m | m in members :: (node, m)| == |members|
  {
    if members != {} {
      var m :| m in members;
      PairsCount(node, members - {m});
      var rest := set x | x in members - {m} :: (node, x);
      assert (set x | x in members :: (node, x)) == rest + {(node, m)};
      assert (node, m) !in rest;
    }
  }

  ghost function PairsOn(inflight: Inflight, b: Bucket, live: seq<string>, server: int, now: int): set<(string, string)> {
    set p | p in HeldPairs(inflight, b, server, now) && p.0 in live
  }

  ghost predicate Distinct(live: seq<string>) {
    forall i, j :: 0 <= i < j < |live| ==> live[i] != live[j]
  }

  /** The counts of the live nodes add up to at least the places those nodes hold, and to exactly these if no node is listed twice. */
  lemma {:induction false} LiveCountsCover(inflight: Inflight, b: Bucket, live: seq<string>, server: int, now: int)
    ensures HeldOn(inflight, b, live, server, now) >= |PairsOn(inflight, b, live, server, now)|
    ensures Distinct(live) ==> HeldOn(inflight, b, live, server, now) == |PairsOn(inflight, b, live, server, now)|
  {
    if live == [] {
      assert PairsOn(inflight, b, live, server, now) == {};
    } else {
      var last := |live| - 1;
      var node := live[last];
      LiveCountsCover(inflight, b, live[..last], server, now);
      var counted := Counted(inflight, b, node, server, now).Keys;
      var here := set m | m in counted :: (node, m);
      PairsCount(node, counted);
      var rest := PairsOn(inflight, b, live[..last], server, now);
      SplitPairs(inflight, b, live, node, counted, server, now, rest, here);
      SubsetIsSmaller(PairsOn(inflight, b, live, server, now), rest + here);
      if Distinct(live) {
        assert node !in live[..last];
        assert rest !! here;
      }
    }
  }

  lemma SplitPairs(inflight: Inflight, b: Bucket, live: seq<string>, node: string, counted: set<string>, server: int, now: int, rest: set<(string, string)>, here: set<(string, string)>)
    requires live != [] && rest == PairsOn(inflight, b, live[..|live| - 1], server, now)
    requires node == live[|live| - 1] && counted == Counted(inflight, b, node, server, now).Keys && here == set m | m in counted :: (node, m)
    ensures PairsOn(inflight, b, live, server, now) == rest + here
  {
    var last := |live| - 1;
    assert live == live[..last] + [live[last]];
  }

  // ----- what the operations do to one node's places on one bucket -----

  lemma LastOrRest(bs: seq<Bucket>, k: string)
    requires bs != []
    ensures HasKey(bs, k) <==> HasKey(bs[..|bs| - 1], k) || bs[|bs| - 1].key == k
    ensures DistinctKeys(bs) && bs[|bs| - 1].key == k ==> !HasKey(bs[..|bs| - 1], k)
  {
    if HasKey(bs, k) {
      var i :| 0 <= i < |bs| && bs[i].key == k;
      assert i < |bs| - 1 ==> bs[..|bs| - 1][i].key == k;
    }
    if HasKey(bs[..|bs| - 1], k) {
      var i :| 0 <= i < |bs| - 1 && bs[..|bs| - 1][i].key == k;
      assert bs[i].key == k;
    }
  }

  lemma {:induction false} HoldAllAt(inflight: Inflight, bs: seq<Bucket>, node: string, member: string, deadline: int, server: int, now: int,
                                     b: Bucket, n: string)
    requires Consistent(b, bs)
    ensures Lookup(HoldAll(inflight, bs, node, member, deadline, server, now), (b.key, n)) ==
            Lookup(if HasKey(bs, b.key) && n == node then Hold(inflight, b, node, member, deadline, server, now) else inflight, (b.key, n))
  {
    if bs != [] {
      HoldAllAt(inflight, bs[..|bs| - 1], node, member, deadline, server, now, b, n);
      LastOrRest(bs, b.key);
    }
  }

  lemma {:induction false} DropAllAt(inflight: Inflight, bs: seq<Bucket>, node: string, member: string, server: int, b: Bucket, n: string)
    requires Consistent(b, bs)
    ensures Lookup(DropAll(inflight, bs, node, member, server), (b.key, n)) ==
            Lookup(if HasKey(bs, b.key) && n == node then Drop(inflight, b, node, member, server) else inflight, (b.key, n))
  {
    if bs != [] {
      DropAllAt(inflight, bs[..|bs| - 1], node, member, server, b, n);
      LastOrRest(bs, b.key);
    }
  }

  lemma SameCountsSamePairs(x: Inflight, y: Inflight, b: Bucket, server: int, now: int)
    requires forall n :: Counted(x, b, n, server, now) == Counted(y, b, n, server, now)
    ensures HeldPairs(x, b, server, now) == HeldPairs(y, b, server, now)
  {
    forall p
      ensures p in HeldPairs(x, b, server, now) <==> p in HeldPairs(y, b, server, now)
    {
      assert Counted(x, b, p.0, server, now) == Counted(y, b, p.0, server, now);
      if p.1 in Counted(x, b, p.0, server, now) {
        assert (b.key, p.0) in x && (b.key, p.0) in y;
      }
    }
  }

  // ----- all or none -----

  lemma SweptPairs(inflight: Inflight, bs: seq<Bucket>, live: seq<string>, count: int, now: int, b: Bucket, server: int)
    requires count <= server
    ensures HeldPairs(PurgedAll(inflight, bs, live, count, now), b, server, now) == HeldPairs(inflight, b, server, now)
  {
    forall n
      ensures Counted(PurgedAll(inflight, bs, live, count, now), b, n, server, now) == Counted(inflight, b, n, server, now)
    {
      L.PurgeAllKeepsCounts(inflight, bs, live, b, n, count, now, server);
    }
    SameCountsSamePairs(PurgedAll(inflight, bs, live, count, now), inflight, b, server, now);
  }

  /** Holding a place on the buckets adds at most one pair on the bucket, and none where it is not named. */
  lemma HoldAddsOnePair(inflight: Inflight, bs: seq<Bucket>, node: string, member: string, deadline: int, server: int, now: int, b: Bucket)
    requires Consistent(b, bs)
    ensures HeldPairs(HoldAll(inflight, bs, node, member, deadline, server, now), b, server, now)
            <= HeldPairs(inflight, b, server, now) + (if HasKey(bs, b.key) then {(node, member)} else {})
  {
    var after := HoldAll(inflight, bs, node, member, deadline, server, now);
    forall p | p in HeldPairs(after, b, server, now)
      ensures p in HeldPairs(inflight, b, server, now) || (HasKey(bs, b.key) && p == (node, member))
    {
      HoldAllAt(inflight, bs, node, member, deadline, server, now, b, p.0);
      assert p.1 in Counted(after, b, p.0, server, now);
      if !(HasKey(bs, b.key) && p == (node, member)) {
        assert p.1 in Counted(inflight, b, p.0, server, now);
      }
    }
  }

  /** Holding a place keeps every pair, and adds the order's own on a bucket that is named. */
  lemma HoldKeepsPair(inflight: Inflight, bs: seq<Bucket>, node: string, member: string, deadline: int, server: int, now: int,
                      b: Bucket, p: (string, string))
    requires Consistent(b, bs) && deadline / MILLISECOND > now / MILLISECOND
    requires p in HeldPairs(inflight, b, server, now) || (HasKey(bs, b.key) && p == (node, member))
    ensures p in HeldPairs(HoldAll(inflight, bs, node, member, deadline, server, now), b, server, now)
  {
    var after := HoldAll(inflight, bs, node, member, deadline, server, now);
    HoldAllAt(inflight, bs, node, member, deadline, server, now, b, p.0);
    if p in HeldPairs(inflight, b, server, now) {
      assert p.1 in Counted(inflight, b, p.0, server, now);
    }
    assert p.1 in Counted(after, b, p.0, server, now);
  }

  lemma HoldPairs(inflight: Inflight, bs: seq<Bucket>, node: string, member: string, deadline: int, server: int, now: int, b: Bucket)
    requires Consistent(b, bs) && deadline / MILLISECOND > now / MILLISECOND
    ensures HeldPairs(HoldAll(inflight, bs, node, member, deadline, server, now), b, server, now)
            == HeldPairs(inflight, b, server, now) + (if HasKey(bs, b.key) then {(node, member)} else {})
  {
    HoldAddsOnePair(inflight, bs, node, member, deadline, server, now, b);
    forall p | p in HeldPairs(inflight, b, server, now) + (if HasKey(bs, b.key) then {(node, member)} else {})
      ensures p in HeldPairs(HoldAll(inflight, bs, node, member, deadline, server, now), b, server, now)
    {
      HoldKeepsPair(inflight, bs, node, member, deadline, server, now, b, p);
    }
  }

  /** A reservation takes a place on every bucket it names, or changes no order's place on any bucket. */
  lemma ReserveAllOrNone(levels: Levels, inflight: Inflight, bs: seq<Bucket>, node: string, member: string, deadline: int,
                         live: seq<string>, at: Clock, count: int, b: Bucket)
    requires Consistent(b, bs) && deadline / MILLISECOND > at.now / MILLISECOND && at.read <= count <= at.write
    ensures var (ok, wait, after) := Reserve(levels, inflight, bs, node, member, deadline, live, at.now, at.read, count, at.write);
            var before := HeldPairs(inflight, b, at.write, at.now);
            && (ok ==> HeldPairs(after, b, at.write, at.now) == before + (if HasKey(bs, b.key) then {(node, member)} else {}))
            && (!ok ==> HeldPairs(after, b, at.write, at.now) == before && wait >= SECOND)
  {
    if bs != [] {
      SweptPairs(inflight, bs, live, count, at.now, b, at.write);
      HoldPairs(PurgedAll(inflight, bs, live, count, at.now), bs, node, member, deadline, at.write, at.now, b);
    }
  }

  // ----- the record of one order's place -----

  datatype Place = Place(node: string, member: string, deadline: int)

  /** A place is swept once its deadline, in whole milliseconds, is no later than the reading. */
  predicate BeforeDeadline(deadline: int, now: int) {
    deadline / MILLISECOND > now / MILLISECOND
  }

  /** The margin of the key has room for the skew and for the cut of its lifetime to whole seconds. */
  predicate WithinHoldMargin(skew: Skew) {
    0 <= skew.width && skew.width + SECOND <= INFLIGHT_MARGIN
  }

  /** The place is in the store, under a key that no node finds gone before it reads the deadline. */
  ghost predicate Recorded(inflight: Inflight, b: Bucket, skew: Skew, r: Place) {
    var k := (b.key, r.node);
    k in inflight && inflight[k].expires + skew.low > r.deadline && r.member in inflight[k].members
    && inflight[k].members[r.member] == r.deadline / MILLISECOND
  }

  lemma RecordedIsCounted(inflight: Inflight, b: Bucket, skew: Skew, r: Place, server: int, now: int)
    requires Recorded(inflight, b, skew, r) && BeforeDeadline(r.deadline, now) && server + skew.low <= now
    ensures (r.node, r.member) in HeldPairs(inflight, b, server, now)
  {
    assert r.member in Counted(inflight, b, r.node, server, now);
  }

  /** What sweeping keeps: every member whose deadline the reading has not passed, under a key with the same expiry. */
  ghost predicate KeepsHolds(before: Inflight, after: Inflight, server: int, now: int) {
    && (forall k :: k in after ==> k in before && after[k].expires == before[k].expires)
    && (forall k, m :: k in before && server < before[k].expires && m in before[k].members && before[k].members[m] > now / MILLISECOND ==>
          k in after && m in after[k].members && after[k].members[m] == before[k].members[m])
  }

  lemma {:induction false} PurgedKeepsHolds(inflight: Inflight, b: Bucket, live: seq<string>, server: int, now: int)
    ensures KeepsHolds(inflight, Purged(inflight, b, live, server, now), server, now)
  {
    if live != [] {
      PurgedKeepsHolds(inflight, b, live[..|live| - 1], server, now);
      var rest := Purged(inflight, b, live[..|live| - 1], server, now);
      var node := live[|live| - 1];
      var after := Purged(inflight, b, live, server, now);
      forall k, m | k in inflight && server < inflight[k].expires && m in inflight[k].members && inflight[k].members[m] > now / MILLISECOND
        ensures k in after && m in after[k].members && after[k].members[m] == inflight[k].members[m]
      {
        assert k in rest && m in rest[k].members;
        if k == (b.key, node) {
          assert m in Counted(rest, b, node, server, now);
        }
      }
    }
  }

  lemma {:induction false} PurgedAllKeepsHolds(inflight: Inflight, bs: seq<Bucket>, live: seq<string>, server: int, now: int)
    ensures KeepsHolds(inflight, PurgedAll(inflight, bs, live, server, now), server, now)
  {
    if bs != [] {
      PurgedAllKeepsHolds(inflight, bs[..|bs| - 1], live, server, now);
      PurgedKeepsHolds(PurgedAll(inflight, bs[..|bs| - 1], live, server, now), bs[|bs| - 1], live, server, now);
    }
  }

  lemma PurgeKeepsRecord(inflight: Inflight, bs: seq<Bucket>, live: seq<string>, b: Bucket, skew: Skew, server: int, now: int, r: Place)
    requires Recorded(inflight, b, skew, r) && BeforeDeadline(r.deadline, now) && server + skew.low <= now
    ensures Recorded(PurgedAll(inflight, bs, live, server, now), b, skew, r)
  {
    PurgedAllKeepsHolds(inflight, bs, live, server, now);
  }

  lemma SameRecord(x: Inflight, y: Inflight, b: Bucket, skew: Skew, r: Place)
    requires Lookup(x, (b.key, r.node)) == Lookup(y, (b.key, r.node)) && Recorded(y, b, skew, r)
    ensures Recorded(x, b, skew, r)
  {
  }

  lemma HoldKeepsRecord(inflight: Inflight, bs: seq<Bucket>, b: Bucket, skew: Skew, node: string, member: string, deadline: int,
                        server: int, now: int, r: Place)
    requires Consistent(b, bs) && Recorded(inflight, b, skew, r) && r.member != member && server + skew.low < r.deadline
    ensures Recorded(HoldAll(inflight, bs, node, member, deadline, server, now), b, skew, r)
  {
    var one := Hold(inflight, b, node, member, deadline, server, now);
    assert Recorded(one, b, skew, r);
    HoldAllAt(inflight, bs, node, member, deadline, server, now, b, r.node);
    SameRecord(HoldAll(inflight, bs, node, member, deadline, server, now), if HasKey(bs, b.key) && r.node == node then one else inflight, b, skew, r);
  }

  /** The key of a place just taken outlives it on every clock: this is what the margin is for. */
  lemma HoldMakesRecord(inflight: Inflight, bs: seq<Bucket>, b: Bucket, skew: Skew, r: Place, server: int, now: int)
    requires Consistent(b, bs) && HasKey(bs, b.key) && WithinHoldMargin(skew) && skew.Reads(server, now)
    ensures Recorded(HoldAll(inflight, bs, r.node, r.member, r.deadline, server, now), b, skew, r)
  {
    assert FloorSec(r.deadline - now + INFLIGHT_MARGIN) > r.deadline - now + INFLIGHT_MARGIN - SECOND;
    HoldAllAt(inflight, bs, r.node, r.member, r.deadline, server, now, b, r.node);
    SameRecord(HoldAll(inflight, bs, r.node, r.member, r.deadline, server, now), Hold(inflight, b, r.node, r.member, r.deadline, server, now), b, skew, r);
  }

  /** The key is kept no longer than its longest place needs: a place adds at most its time to the deadline and the margin. */
  lemma HoldIsForgottenInTime(inflight: Inflight, b: Bucket, node: string, member: string, deadline: int, server: int, now: int)
    requires deadline - now + INFLIGHT_MARGIN >= SECOND
    ensures var k := (b.key, node);
            var after := Hold(inflight, b, node, member, deadline, server, now);
            k in after && after[k].expires <= Max(if k in inflight then inflight[k].expires else server, server + (deadline - now) + INFLIGHT_MARGIN)
  {
  }

  /** Dropping one order's place leaves every other order's record. */
  lemma DropKeepsRecord(inflight: Inflight, c: Bucket, b: Bucket, skew: Skew, node: string, member: string, server: int, r: Place)
    requires Recorded(inflight, b, skew, r) && (r.member != member || c.key != b.key) && server + skew.low < r.deadline
    ensures Recorded(Drop(inflight, c, node, member, server), b, skew, r)
  {
    var k := (b.key, r.node);
    if r.node == node && c.key == b.key {
      assert r.member in inflight[k].members - {member};
    }
  }

  lemma DropAllKeepsRecord(inflight: Inflight, bs: seq<Bucket>, b: Bucket, skew: Skew, node: string, member: string, server: int, r: Place)
    requires Consistent(b, bs) && Recorded(inflight, b, skew, r) && (r.member != member || !HasKey(bs, b.key)) && server + skew.low < r.deadline
    ensures Recorded(DropAll(inflight, bs, node, member, server), b, skew, r)
  {
    DropAllAt(inflight, bs, node, member, server, b, r.node);
    if HasKey(bs, b.key) && r.node == node {
      DropKeepsRecord(inflight, b, b, skew, node, member, server, r);
      SameRecord(DropAll(inflight, bs, node, member, server), Drop(inflight, b, node, member, server), b, skew, r);
    } else {
      SameRecord(DropAll(inflight, bs, node, member, server), inflight, b, skew, r);
    }
  }

  lemma DropRemovesPair(inflight: Inflight, b: Bucket, node: string, member: string, server: int, now: int)
    ensures HeldPairs(Drop(inflight, b, node, member, server), b, server, now) == HeldPairs(inflight, b, server, now) - {(node, member)}
  {
    var after := Drop(inflight, b, node, member, server);
    forall p
      ensures p in HeldPairs(after, b, server, now) <==> p in HeldPairs(inflight, b, server, now) && p != (node, member)
    {
      assert p.1 in Counted(after, b, p.0, server, now) <==> p.1 in Counted(inflight, b, p.0, server, now) && p != (node, member);
    }
  }
}
