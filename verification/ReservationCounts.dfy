/**
 What a reservation counts against: in every run exactly the places of orders that are neither settled nor past their
 deadline, so an order is refused only when these leave no token for it.
 */
module ReservationCounts {
  import opened Basics
  import opened TokenBucket
  import opened Budget
  import opened BudgetLedger
  import opened InflightHolds
  import opened R = Reservations
  import K = BudgetLock

  /** The entry is the place of an order that is still open on the bucket. */
  ghost predicate Owned(b: Bucket, resvs: seq<Resv>, node: string, member: string, ms: int) {
    exists i :: 0 <= i < |resvs| && IsPlace(b, resvs[i], node, member, ms)
  }

  predicate IsPlace(b: Bucket, r: Resv, node: string, member: string, ms: int) {
    r.place.node == node && r.place.member == member && r.place.deadline / MILLISECOND == ms && b.key in r.open
  }

  ghost predicate AllOwned(b: Bucket, inflight: Inflight, resvs: seq<Resv>) {
    forall n, m :: (b.key, n) in inflight && m in inflight[(b.key, n)].members ==> Owned(b, resvs, n, m, inflight[(b.key, n)].members[m])
  }

  lemma {:induction false} PurgedIsFewer(inflight: Inflight, b: Bucket, live: seq<string>, server: int, now: int)
    ensures K.Fewer(Purged(inflight, b, live, server, now), inflight)
  {
    if live != [] {
      PurgedIsFewer(inflight, b, live[..|live| - 1], server, now);
    }
  }

  lemma {:induction false} PurgedAllIsFewer(inflight: Inflight, bs: seq<Bucket>, live: seq<string>, server: int, now: int)
    ensures K.Fewer(PurgedAll(inflight, bs, live, server, now), inflight)
  {
    if bs != [] {
      PurgedAllIsFewer(inflight, bs[..|bs| - 1], live, server, now);
      PurgedIsFewer(PurgedAll(inflight, bs[..|bs| - 1], live, server, now), bs[|bs| - 1], live, server, now);
    }
  }

  lemma FewerOwned(b: Bucket, later: Inflight, earlier: Inflight, resvs: seq<Resv>)
    requires K.Fewer(later, earlier) && AllOwned(b, earlier, resvs)
    ensures AllOwned(b, later, resvs)
  {
  }

  /** Reservations that keep their places and their open buckets keep owning. */
  lemma SameOwners(b: Bucket, inflight: Inflight, before: seq<Resv>, after: seq<Resv>)
    requires AllOwned(b, inflight, before) && |after| >= |before|
    requires forall i :: 0 <= i < |before| ==> after[i].place == before[i].place && (b.key in before[i].open ==> b.key in after[i].open)
    ensures AllOwned(b, inflight, after)
  {
    forall n, m | (b.key, n) in inflight && m in inflight[(b.key, n)].members
      ensures Owned(b, after, n, m, inflight[(b.key, n)].members[m])
    {
      var ms := inflight[(b.key, n)].members[m];
      assert Owned(b, before, n, m, ms);
      var i :| 0 <= i < |before| && IsPlace(b, before[i], n, m, ms);
      assert IsPlace(b, after[i], n, m, ms);
    }
  }

  lemma HeldIsOwned(b: Bucket, inflight: Inflight, bs: seq<Bucket>, place: Place, server: int, now: int, resvs: seq<Resv>)
    requires Consistent(b, bs) && AllOwned(b, inflight, resvs)
    requires HasKey(bs, b.key) ==> Owned(b, resvs, place.node, place.member, place.deadline / MILLISECOND)
    ensures AllOwned(b, HoldAll(inflight, bs, place.node, place.member, place.deadline, server, now), resvs)
  {
    var after := HoldAll(inflight, bs, place.node, place.member, place.deadline, server, now);
    forall n, m | (b.key, n) in after && m in after[(b.key, n)].members
      ensures Owned(b, resvs, n, m, after[(b.key, n)].members[m])
    {
      HoldAllAt(inflight, bs, place.node, place.member, place.deadline, server, now, b, n);
      var one := if HasKey(bs, b.key) && n == place.node then Hold(inflight, b, place.node, place.member, place.deadline, server, now) else inflight;
      assert Lookup(after, (b.key, n)) == Lookup(one, (b.key, n));
      assert (b.key, n) in one && after[(b.key, n)] == one[(b.key, n)];
    }
  }

  lemma AdmitOwns(b: Bucket, skew: Skew, s: Sys, a: Action)
    requires a.Admit? && R.Enabled(b, skew, s, a) && AllOwned(b, s.inflight, s.resvs)
    ensures AllOwned(b, R.Step(b, skew, s, a).inflight, R.Step(b, skew, s, a).resvs)
  {
    var t := R.Step(b, skew, s, a);
    SameOwners(b, s.inflight, s.resvs, t.resvs);
    if a.bs != [] {
      var swept := PurgedAll(s.inflight, a.bs, a.live, a.count, a.at.now);
      PurgedAllIsFewer(s.inflight, a.bs, a.live, a.count, a.at.now);
      FewerOwned(b, swept, s.inflight, t.resvs);
      KeysAreNamed(a.bs, b.key);
      assert HasKey(a.bs, b.key) ==> IsPlace(b, t.resvs[|s.resvs|], a.place.node, a.place.member, a.place.deadline / MILLISECOND);
      HeldIsOwned(b, swept, a.bs, a.place, a.at.write, a.at.now, t.resvs);
    }
  }

  /** Once an order's place was dropped from the bucket, nothing there is its own. */
  lemma DroppedOwners(b: Bucket, before: Inflight, after: Inflight, resvs: seq<Resv>, i: nat, r: Resv)
    requires i < |resvs| && K.Fewer(after, before) && AllOwned(b, before, resvs) && r.place == resvs[i].place
    requires (b.key, r.place.node) in after ==> r.place.member !in after[(b.key, r.place.node)].members
    ensures AllOwned(b, after, resvs[i := r])
  {
    forall n, m | (b.key, n) in after && m in after[(b.key, n)].members
      ensures Owned(b, resvs[i := r], n, m, after[(b.key, n)].members[m])
    {
      var ms := after[(b.key, n)].members[m];
      assert Owned(b, resvs, n, m, before[(b.key, n)].members[m]);
      var j :| 0 <= j < |resvs| && IsPlace(b, resvs[j], n, m, ms);
      assert j != i;
      assert IsPlace(b, resvs[i := r][j], n, m, ms);
    }
  }

  lemma DropIsFewer(inflight: Inflight, c: Bucket, node: string, member: string, server: int)
    ensures K.Fewer(Drop(inflight, c, node, member, server), inflight)
  {
  }

  lemma SpendOwns(b: Bucket, skew: Skew, s: Sys, a: Action)
    requires a.Spend? && R.Enabled(b, skew, s, a) && AllOwned(b, s.inflight, s.resvs)
    ensures AllOwned(b, R.Step(b, skew, s, a).inflight, R.Step(b, skew, s, a).resvs)
  {
    var t, r := R.Step(b, skew, s, a), s.resvs[a.i];
    DropIsFewer(s.inflight, a.b, r.place.node, r.place.member, a.at.write);
    if a.b == b {
      DroppedOwners(b, s.inflight, t.inflight, s.resvs, a.i, t.resvs[a.i]);
    } else {
      FewerOwned(b, t.inflight, s.inflight, s.resvs);
      SameOwners(b, t.inflight, s.resvs, t.resvs);
    }
  }

  lemma ReleaseOwns(b: Bucket, skew: Skew, s: Sys, a: Action)
    requires a.Release? && R.Enabled(b, skew, s, a) && AllOwned(b, s.inflight, s.resvs)
    ensures AllOwned(b, R.Step(b, skew, s, a).inflight, R.Step(b, skew, s, a).resvs)
  {
    var t, r := R.Step(b, skew, s, a), s.resvs[a.i];
    K.DropAllIsFewer(s.inflight, a.bs, r.place.node, r.place.member, a.server);
    KeysAreNamed(a.bs, b.key);
    if HasKey(a.bs, b.key) {
      DropAllAt(s.inflight, a.bs, r.place.node, r.place.member, a.server, b, r.place.node);
      assert Lookup(t.inflight, (b.key, r.place.node)) == Lookup(Drop(s.inflight, b, r.place.node, r.place.member, a.server), (b.key, r.place.node));
      DroppedOwners(b, s.inflight, t.inflight, s.resvs, a.i, t.resvs[a.i]);
    } else {
      FewerOwned(b, t.inflight, s.inflight, s.resvs);
      SameOwners(b, t.inflight, s.resvs, t.resvs);
    }
  }

  lemma StepOwns(b: Bucket, skew: Skew, s: Sys, a: Action)
    requires R.Enabled(b, skew, s, a) && AllOwned(b, s.inflight, s.resvs)
    ensures AllOwned(b, R.Step(b, skew, s, a).inflight, R.Step(b, skew, s, a).resvs)
  {
    hide AllOwned;
    match a
    case Admit(_, _, _, _, _) => AdmitOwns(b, skew, s, a);
    case Sweep(bs, live, now, server) =>
      PurgedAllIsFewer(s.inflight, bs, live, server, now);
      FewerOwned(b, PurgedAll(s.inflight, bs, live, server, now), s.inflight, s.resvs);
    case Spend(_, _, _) => SpendOwns(b, skew, s, a);
    case Release(_, _, _) => ReleaseOwns(b, skew, s, a);
  }

  lemma {:induction false} RunOwns(b: Bucket, skew: Skew, s: Sys, run: seq<Action>)
    requires R.Legal(b, skew, s, run) && AllOwned(b, s.inflight, s.resvs)
    ensures AllOwned(b, R.Exec(b, skew, s, run).inflight, R.Exec(b, skew, s, run).resvs)
    decreases |run|
  {
    hide AllOwned, R.Step, R.Enabled;
    if run != [] {
      StepOwns(b, skew, s, run[0]);
      RunOwns(b, skew, R.Step(b, skew, s, run[0]), run[1..]);
    }
  }

  /** The orders that are not settled on the bucket and whose deadline a reading has not passed. */
  function OpenAt(b: Bucket, resvs: seq<Resv>, now: int): set<nat> {
    set i | 0 <= i < |resvs| && b.key in resvs[i].open && BeforeDeadline(resvs[i].place.deadline, now)
  }

  function PlaceOf(resvs: seq<Resv>, i: nat): (string, string)
    requires i < |resvs|
  {
    (resvs[i].place.node, resvs[i].place.member)
  }

  /** In every run, whatever a section counts is the place of an order that is not settled and not past its deadline. */
  lemma CountedIsOpen(b: Bucket, skew: Skew, run: seq<Action>, server: int, now: int, p: (string, string))
    requires R.Legal(b, skew, R.Start(skew), run) && p in HeldPairs(R.Exec(b, skew, R.Start(skew), run).inflight, b, server, now)
    ensures var s := R.Exec(b, skew, R.Start(skew), run); exists i :: i in OpenAt(b, s.resvs, now) && PlaceOf(s.resvs, i) == p
  {
    RunOwns(b, skew, R.Start(skew), run);
    var s := R.Exec(b, skew, R.Start(skew), run);
    HeldExactly(s.inflight, b, server, now, p);
    var ms := s.inflight[(b.key, p.0)].members[p.1];
    assert Owned(b, s.resvs, p.0, p.1, ms);
    var i :| 0 <= i < |s.resvs| && IsPlace(b, s.resvs[i], p.0, p.1, ms);
    assert i in OpenAt(b, s.resvs, now);
  }

  lemma {:induction false} FewerPlaces(resvs: seq<Resv>, pairs: set<(string, string)>, ids: set<nat>)
    requires forall i :: i in ids ==> i < |resvs|
    requires forall p :: p in pairs ==> exists i :: i in ids && PlaceOf(resvs, i) == p
    ensures |pairs| <= |ids|
    decreases |ids|
  {
    if pairs != {} {
      var p :| p in pairs;
      var i :| i in ids && PlaceOf(resvs, i) == p;
      forall q | q in pairs - {p}
        ensures exists j :: j in ids - {i} && PlaceOf(resvs, j) == q
      {
        var j :| j in ids && PlaceOf(resvs, j) == q;
        assert j != i;
      }
      FewerPlaces(resvs, pairs - {p}, ids - {i});
    }
  }

  /**
   An order is not refused without need: in every run, a reservation on the bucket is admitted if it has a token for every
   order that is neither settled nor past its deadline, and one more.
   */
  lemma AdmittedWithRoom(b: Bucket, skew: Skew, run: seq<Action>, place: Place, live: seq<string>, at: Clock, count: int)
    requires R.Legal(b, skew, R.Start(skew), run) && Distinct(live)
    requires var s := R.Exec(b, skew, R.Start(skew), run);
             TokensAt(b, View(s.levels, b, at.read, at.now), at.now) >= |OpenAt(b, s.resvs, at.now)| as real + 1.0
    ensures var s := R.Exec(b, skew, R.Start(skew), run);
            Reserve(s.levels, s.inflight, [b], place.node, place.member, place.deadline, live, at.now, at.read, count, at.write).0
  {
    var s := R.Exec(b, skew, R.Start(skew), run);
    var pairs := PairsOn(s.inflight, b, live, count, at.now);
    LiveCountsCover(s.inflight, b, live, count, at.now);
    forall p | p in pairs
      ensures exists i :: i in OpenAt(b, s.resvs, at.now) && PlaceOf(s.resvs, i) == p
    {
      CountedIsOpen(b, skew, run, count, at.now, p);
    }
    FewerPlaces(s.resvs, pairs, OpenAt(b, s.resvs, at.now));
  }
}
