/**
 Settling one attempt of the issuance chain (internal/acme/chain.go): what the order spent is committed,
 the rest of its reservation and of its prepaid requests is given back.
 */
module Chain {
  import opened TokenBucket
  import opened Budget
  import opened BudgetLedger
  import opened L = Limiter
  import opened T = Track
  import S = Settlement
  import opened B = BudgetLock

  // ----- which buckets are spent -----

  function ToSpend(ok: bool, out: Outcome, onCreate: seq<Bucket>, onSuccess: seq<Bucket>): seq<Bucket> {
    (if ok || out.created then onCreate else []) + (if ok || out.finalized then onSuccess else [])
  }

  function ToRelease(ok: bool, out: Outcome, onCreate: seq<Bucket>, onSuccess: seq<Bucket>): seq<Bucket> {
    (if ok || out.created then [] else onCreate) + (if ok || out.finalized then [] else onSuccess)
  }

  /**
   Whatever the interleaving, if an order request may be counting at the CA and none was begun after an
   unanswered one, the buckets charged on creation are spent and none of them is given back; the same
   for finalize requests and the buckets charged on success.
   */
  lemma CountedOrdersAreSpent(run: seq<S.Action>, ok: bool, onCreate: seq<Bucket>, onSuccess: seq<Bucket>, i: nat, kind: SentRequest)
    requires kind.SentOrder? || kind.SentFinalize?
    requires S.Legal(S.INIT, run) && S.Exec(S.INIT, run).attempt.Settling?
    requires var reqs := S.Exec(S.INIT, run).known;
             forall i, j :: 0 <= i < j < |reqs| && reqs[i].kind == kind && reqs[i].fate == S.Lost ==> reqs[j].kind != kind
    requires var reqs := S.Exec(S.INIT, run).reqs; i < |reqs| && reqs[i].kind == kind && S.MayCount(reqs[i])
    requires DistinctKeys(onCreate + onSuccess)
    ensures var out := S.Exec(S.INIT, run).attempt.out;
            var mine := if kind.SentOrder? then onCreate else onSuccess;
            forall b :: b in mine ==> b in ToSpend(ok, out, onCreate, onSuccess) && b !in ToRelease(ok, out, onCreate, onSuccess)
  {
    S.NoOrderEscapes(run, kind);
    var s := S.Exec(S.INIT, run);
    assert S.OutcomeFor(s.attempt.out, kind);
    var mine, other := if kind.SentOrder? then onCreate else onSuccess, if kind.SentOrder? then onSuccess else onCreate;
    forall b | b in mine
      ensures b !in other
    {
      NotInBoth(onCreate, onSuccess, b);
    }
  }

  /**
   Exactly which buckets are spent, whatever the interleaving: those of an attempt that succeeded, and those of a kind for
   which the requests begun by then show a success, an unanswered request or one in progress. All others are released.
   */
  lemma SpentExactly(run: seq<S.Action>, ok: bool, onCreate: seq<Bucket>, onSuccess: seq<Bucket>, kind: SentRequest, b: Bucket)
    requires kind.SentOrder? || kind.SentFinalize?
    requires S.Legal(S.INIT, run) && S.Exec(S.INIT, run).attempt.Settling?
    requires DistinctKeys(onCreate + onSuccess) && b in if kind.SentOrder? then onCreate else onSuccess
    ensures var s := S.Exec(S.INIT, run);
            var spent := ok || S.Shows(s.known, s.unclear, kind);
            && (b in ToSpend(ok, s.attempt.out, onCreate, onSuccess) <==> spent)
            && (b in ToRelease(ok, s.attempt.out, onCreate, onSuccess) <==> !spent)
  {
    S.OutcomeIsShown(run, kind);
    NotInBoth(onCreate, onSuccess, b);
  }

  lemma NotInBoth(xs: seq<Bucket>, ys: seq<Bucket>, b: Bucket)
    requires DistinctKeys(xs + ys)
    ensures !(b in xs && b in ys)
  {
    forall i, j | 0 <= i < |xs| && 0 <= j < |ys|
      ensures xs[i] != ys[j]
    {
      assert (xs + ys)[i] == xs[i] && (xs + ys)[|xs| + j] == ys[j];
    }
  }

  lemma PartsAreDistinct(xs: seq<Bucket>, ys: seq<Bucket>)
    requires DistinctKeys(xs + ys)
    ensures DistinctKeys(xs) && DistinctKeys(ys)
  {
    assert forall i :: 0 <= i < |xs| ==> (xs + ys)[i] == xs[i];
    assert forall i :: 0 <= i < |ys| ==> (xs + ys)[|xs| + i] == ys[i];
  }

  // ----- what other orders do meanwhile -----

  /** A section of another order, run in one piece as its lock makes it, or another order's release, which has no lock. */
  datatype Other = OtherSection(sec: Section, at: Clock) | OtherRelease(bs: seq<Bucket>, node: string, member: string, server: int)

  function Done(store: Store, o: Other): Store {
    match o
    case OtherRelease(bs, node, member, server) => store.(inflight := DropAll(store.inflight, bs, node, member, server))
    case OtherSection(sec, at) =>
      var swept := Swept(sec, store, at.now, at.read);
      if Admits(sec, swept, at.now, at.read) then Atomically(sec, swept, at.now, at.read, at.write) else swept
  }

  function AllDone(store: Store, os: seq<Other>): Store {
    if os == [] then store else Done(AllDone(store, os[..|os| - 1]), os[|os| - 1])
  }

  /** Members are unique: no other order takes a place under this one. */
  predicate Foreign(os: seq<Other>, member: string) {
    forall i :: 0 <= i < |os| && os[i].OtherSection? && os[i].sec.ReserveSection? ==> os[i].sec.member != member
  }

  // ----- settling, section by section -----

  /** What precedes one of the order's own sections, when it runs, and whether it reaches the store at all. */
  datatype Slot = Slot(others: seq<Other>, at: Clock, up: bool)

  function CommittedOne(store: Store, b: Bucket, node: string, member: string, at: Clock): Store {
    Store(Commit(store.levels, b, at.now, at.read, at.write), Drop(store.inflight, b, node, member, at.write))
  }

  /** The store before the order's own section i, when its commits are those of `bs` in this order. */
  function Before(store: Store, bs: seq<Bucket>, node: string, member: string, slot: nat -> Slot, i: nat): Store
    requires i <= |bs|
    decreases i, 1
  {
    AllDone(After(store, bs, node, member, slot, i), slot(i).others)
  }

  /** The store after i of its own sections. */
  function After(store: Store, bs: seq<Bucket>, node: string, member: string, slot: nat -> Slot, i: nat): Store
    requires i <= |bs|
    decreases i, 0
  {
    if i == 0 then store
    else
      var before := Before(store, bs, node, member, slot, i - 1);
      if slot(i - 1).up then CommittedOne(before, bs[i - 1], node, member, slot(i - 1).at) else before
  }

  /** Unused requests are refunded unless the account was limited after they were prepaid, or that cannot be told. */
  predicate MayRefund(mark: string, known: bool, prepaidMark: string) {
    known && (mark == "" || mark == prepaidMark)
  }

  /** Other orders' sections on the same store. */
  method Disturb(l: L.Limiter, os: seq<Other>)
    modifies l
    ensures Store(l.levels, l.inflight) == AllDone(old(Store(l.levels, l.inflight)), os)
  {
    for i := 0 to |os|
      invariant Store(l.levels, l.inflight) == AllDone(old(Store(l.levels, l.inflight)), os[..i])
    {
      var after := Done(Store(l.levels, l.inflight), os[i]);
      l.levels, l.inflight := after.levels, after.inflight;
      assert os[..i + 1][..i] == os[..i];
    }
    assert os[..|os|] == os;
  }

  method CommitEach(l: L.Limiter, bs: seq<Bucket>, node: string, member: string, slot: nat -> Slot)
    modifies l
    ensures Store(l.levels, l.inflight) == After(old(Store(l.levels, l.inflight)), bs, node, member, slot, |bs|)
  {
    for i := 0 to |bs|
      invariant Store(l.levels, l.inflight) == After(old(Store(l.levels, l.inflight)), bs, node, member, slot, i)
    {
      Disturb(l, slot(i).others);
      if slot(i).up {
        l.CommitACME(bs[i], node, member, slot(i).at.now, slot(i).at.read, slot(i).at.write);
      }
    }
  }

  /** The unused prepaid requests are taken off the track, and credited when that is allowed. */
  method RefundUnused(l: L.Limiter, track: T.OrderTrack, prepay: Bucket, mark: string, known: bool, at: Clock)
    modifies l, track
    ensures l.inflight == old(l.inflight)
    ensures l.levels == (if MayRefund(mark, known, old(track.prepaidMark)) then Refund(old(l.levels), prepay, old(track.prepaid), at.now, at.read, at.write) else old(l.levels))
    ensures track.View() == old(track.View()).(prepaid := 0)
  {
    var left, prepaidMark := track.DrainPrepaidUnits();
    if left > 0 && known && (mark == "" || mark == prepaidMark) {
      l.RefundACME(prepay, left, at.now, at.read, at.write);
    }
  }

  /** The store after the commits and the release, with what others did before each. */
  function Released(store: Store, spend: seq<Bucket>, release: seq<Bucket>, node: string, member: string, slot: nat -> Slot): Store {
    var n := |spend|;
    var before := Before(store, spend, node, member, slot, n);
    if slot(n).up then before.(inflight := DropAll(before.inflight, release, node, member, slot(n).at.write)) else before
  }

  method SettleAttempt(l: L.Limiter, track: T.OrderTrack, prepay: Bucket, out: Outcome, ok: bool, onCreate: seq<Bucket>, onSuccess: seq<Bucket>,
                       node: string, member: string, mark: string, known: bool, slot: nat -> Slot)
    modifies l, track
    ensures var spend, release := ToSpend(ok, out, onCreate, onSuccess), ToRelease(ok, out, onCreate, onSuccess);
            var last := slot(|spend| + 1);
            var store := AllDone(Released(old(Store(l.levels, l.inflight)), spend, release, node, member, slot), last.others);
            && l.inflight == store.inflight
            && l.levels == (if MayRefund(mark, known, old(track.prepaidMark))
                            then Refund(store.levels, prepay, old(track.prepaid), last.at.now, last.at.read, last.at.write) else store.levels)
    ensures track.View() == old(track.View()).(prepaid := 0)
  {
    var spend, release := [], [];
    if ok || out.created {
      spend := spend + onCreate;
    } else {
      release := release + onCreate;
    }
    if ok || out.finalized {
      spend := spend + onSuccess;
    } else {
      release := release + onSuccess;
    }
    assert spend == ToSpend(ok, out, onCreate, onSuccess) && release == ToRelease(ok, out, onCreate, onSuccess);
    var n := |spend|;
    CommitEach(l, spend, node, member, slot);
    Disturb(l, slot(n).others);
    if slot(n).up {
      l.ReleaseACME(release, node, member, slot(n).at.write);
    }
    Disturb(l, slot(n + 1).others);
    RefundUnused(l, track, prepay, mark, known, slot(n + 1).at);
  }

  // ----- what settling does to each bucket -----

  /** The order has no place on the bucket under the key. */
  predicate Unheld(inflight: Inflight, k: string, node: string, member: string) {
    (k, node) in inflight ==> member !in inflight[(k, node)].members
  }

  lemma {:induction false} DropAllRemoves(inflight: Inflight, bs: seq<Bucket>, node: string, member: string, server: int, k: string)
    ensures HasKey(bs, k) ==> Unheld(DropAll(inflight, bs, node, member, server), k, node, member)
  {
    if bs != [] {
      DropAllRemoves(inflight, bs[..|bs| - 1], node, member, server, k);
      if HasKey(bs, k) && bs[|bs| - 1].key != k {
        var i :| 0 <= i < |bs| && bs[i].key == k;
        assert bs[..|bs| - 1][i].key == k;
      }
    }
  }

  lemma {:induction false} DropAllStaysUnheld(inflight: Inflight, bs: seq<Bucket>, n: string, m: string, server: int, k: string, node: string, member: string)
    requires Unheld(inflight, k, node, member)
    ensures Unheld(DropAll(inflight, bs, n, m, server), k, node, member)
  {
    if bs != [] {
      DropAllStaysUnheld(inflight, bs[..|bs| - 1], n, m, server, k, node, member);
    }
  }

  lemma {:induction false} HoldAllStaysUnheld(inflight: Inflight, bs: seq<Bucket>, n: string, m: string, deadline: int, server: int, now: int,
                                              k: string, node: string, member: string)
    requires Unheld(inflight, k, node, member) && m != member
    ensures Unheld(HoldAll(inflight, bs, n, m, deadline, server, now), k, node, member)
  {
    if bs != [] {
      HoldAllStaysUnheld(inflight, bs[..|bs| - 1], n, m, deadline, server, now, k, node, member);
    }
  }

  lemma {:induction false} PurgedStaysUnheld(inflight: Inflight, b: Bucket, live: seq<string>, server: int, now: int, k: string, node: string, member: string)
    requires Unheld(inflight, k, node, member)
    ensures Unheld(Purged(inflight, b, live, server, now), k, node, member)
  {
    if live != [] {
      PurgedStaysUnheld(inflight, b, live[..|live| - 1], server, now, k, node, member);
    }
  }

  lemma {:induction false} PurgedAllStaysUnheld(inflight: Inflight, bs: seq<Bucket>, live: seq<string>, server: int, now: int,
                                                k: string, node: string, member: string)
    requires Unheld(inflight, k, node, member)
    ensures Unheld(PurgedAll(inflight, bs, live, server, now), k, node, member)
  {
    if bs != [] {
      PurgedAllStaysUnheld(inflight, bs[..|bs| - 1], live, server, now, k, node, member);
      PurgedStaysUnheld(PurgedAll(inflight, bs[..|bs| - 1], live, server, now), bs[|bs| - 1], live, server, now, k, node, member);
    }
  }

  lemma OtherStaysUnheld(store: Store, o: Other, k: string, node: string, member: string)
    requires Unheld(store.inflight, k, node, member) && Foreign([o], member)
    ensures Unheld(Done(store, o).inflight, k, node, member)
  {
    match o
    case OtherRelease(bs, n, m, server) => DropAllStaysUnheld(store.inflight, bs, n, m, server, k, node, member);
    case OtherSection(sec, at) =>
      if sec.ReserveSection? {
        assert [o][0] == o;
        PurgedAllStaysUnheld(store.inflight, sec.bs, sec.live, at.read, at.now, k, node, member);
        HoldAllStaysUnheld(Swept(sec, store, at.now, at.read).inflight, sec.bs, sec.node, sec.member, sec.deadline, at.write, at.now, k, node, member);
      }
  }

  /** A place that is gone does not come back, whatever other orders do. */
  lemma {:induction false} OthersStayUnheld(store: Store, os: seq<Other>, k: string, node: string, member: string)
    requires Unheld(store.inflight, k, node, member) && Foreign(os, member)
    ensures Unheld(AllDone(store, os).inflight, k, node, member)
  {
    if os != [] {
      OthersStayUnheld(store, os[..|os| - 1], k, node, member);
      OtherStaysUnheld(AllDone(store, os[..|os| - 1]), os[|os| - 1], k, node, member);
    }
  }

  ghost predicate OthersForeign(slot: nat -> Slot, member: string) {
    forall i :: Foreign(slot(i).others, member)
  }

  /** Once the order's commit of a bucket has run, it holds no place there in any later state. */
  lemma {:induction false} CommittedStaysUnheld(store: Store, bs: seq<Bucket>, node: string, member: string, slot: nat -> Slot, i: nat, j: nat)
    requires i < j <= |bs| && slot(i).up && OthersForeign(slot, member)
    ensures Unheld(After(store, bs, node, member, slot, j).inflight, bs[i].key, node, member)
    ensures Unheld(Before(store, bs, node, member, slot, j).inflight, bs[i].key, node, member)
  {
    var k := bs[i].key;
    if j > i + 1 {
      CommittedStaysUnheld(store, bs, node, member, slot, i, j - 1);
    }
    OthersStayUnheld(After(store, bs, node, member, slot, j), slot(j).others, k, node, member);
  }

  lemma KeyIsElsewhere(all: seq<Bucket>, some: seq<Bucket>, b: Bucket)
    requires DistinctKeys(all) && b in all && b !in some && forall x :: x in some ==> x in all
    ensures forall j :: 0 <= j < |some| ==> some[j].key != b.key
  {
    forall j | 0 <= j < |some|
      ensures some[j].key != b.key
    {
      assert some[j] in some;
      var x :| 0 <= x < |all| && all[x] == b;
      var y :| 0 <= y < |all| && all[y] == some[j];
    }
  }

  /** The order's own section i leaves the level of the key as it found it. */
  ghost predicate Leaves(store: Store, bs: seq<Bucket>, node: string, member: string, slot: nat -> Slot, i: nat, k: string)
    requires i < |bs|
  {
    Lookup(After(store, bs, node, member, slot, i + 1).levels, k) == Lookup(Before(store, bs, node, member, slot, i).levels, k)
  }

  /** The order's own section i takes one token of the bucket, from the level of that moment. */
  ghost predicate SpendsOne(store: Store, bs: seq<Bucket>, node: string, member: string, slot: nat -> Slot, i: nat, b: Bucket)
    requires i < |bs|
  {
    var at := slot(i).at;
    var v := View(Before(store, bs, node, member, slot, i).levels, b, at.read, at.now);
    var levels := After(store, bs, node, member, slot, i + 1).levels;
    b.key in levels && levels[b.key].tokens == TokensAt(b, v, at.now) - 1.0
  }

  /**
   Settling accounts for every bucket of the reservation exactly once, with any sections of other orders between
   its own and any of its own failing: of its sections exactly one, on a bucket to spend, or none, on one to release,
   touches the level, and takes one token of what the level is at that moment. When the section for a bucket reaches
   the store, the order's place there is gone for good.
   */
  lemma SettlingIsExact(store: Store, ok: bool, out: Outcome, onCreate: seq<Bucket>, onSuccess: seq<Bucket>,
                        node: string, member: string, slot: nat -> Slot, b: Bucket)
    requires DistinctKeys(onCreate + onSuccess) && b in onCreate + onSuccess && OthersForeign(slot, member)
    ensures var spend, release := ToSpend(ok, out, onCreate, onSuccess), ToRelease(ok, out, onCreate, onSuccess);
            var held := Released(store, spend, release, node, member, slot).inflight;
            && (b in spend <==> b !in release)
            && (b in spend ==> exists i :: && 0 <= i < |spend| && spend[i] == b
                                           && (if slot(i).up then SpendsOne(store, spend, node, member, slot, i, b) && Unheld(held, b.key, node, member)
                                               else Leaves(store, spend, node, member, slot, i, b.key))
                                           && forall j :: 0 <= j < |spend| && j != i ==> Leaves(store, spend, node, member, slot, j, b.key))
            && (b in release ==> && (forall j :: 0 <= j < |spend| ==> Leaves(store, spend, node, member, slot, j, b.key))
                                 && (slot(|spend|).up ==> Unheld(held, b.key, node, member)))
  {
    var all := onCreate + onSuccess;
    var spend, release := ToSpend(ok, out, onCreate, onSuccess), ToRelease(ok, out, onCreate, onSuccess);
    PartsAreDistinct(onCreate, onSuccess);
    assert DistinctKeys(spend) by {
      assert spend == all || spend == onCreate || spend == onSuccess || spend == [];
    }
    NotInBoth(onCreate, onSuccess, b);
    if b in spend {
      var i :| 0 <= i < |spend| && spend[i] == b;
      SpentOnce(store, spend, release, node, member, slot, i);
    } else {
      assert b in release;
      var i :| 0 <= i < |release| && release[i] == b;
      assert HasKey(release, b.key);
      KeyIsElsewhere(all, spend, b);
      ReleasedOnly(store, spend, release, node, member, slot, b);
    }
  }

  /**
   An attempt that failed before any request of a kind was begun: every bucket of that kind is released and none is spent,
   no section of the settlement touches its level, and once the release reached the store the order's place there is gone.
   */
  lemma UnbegunIsReleased(run: seq<S.Action>, kind: SentRequest, store: Store, onCreate: seq<Bucket>, onSuccess: seq<Bucket>,
                          node: string, member: string, slot: nat -> Slot, b: Bucket)
    requires kind.SentOrder? || kind.SentFinalize?
    requires S.Legal(S.INIT, run) && S.Exec(S.INIT, run).attempt.Settling?
    requires var known := S.Exec(S.INIT, run).known; forall i :: 0 <= i < |known| ==> known[i].kind != kind
    requires DistinctKeys(onCreate + onSuccess) && (b in if kind.SentOrder? then onCreate else onSuccess) && OthersForeign(slot, member)
    ensures var out := S.Exec(S.INIT, run).attempt.out;
            var spend, release := ToSpend(false, out, onCreate, onSuccess), ToRelease(false, out, onCreate, onSuccess);
            && b in release && b !in spend
            && (forall j :: 0 <= j < |spend| ==> Leaves(store, spend, node, member, slot, j, b.key))
            && (slot(|spend|).up ==> Unheld(Released(store, spend, release, node, member, slot).inflight, b.key, node, member))
  {
    hide OthersForeign, Leaves, Unheld;
    var s := S.Exec(S.INIT, run);
    S.LatestOfNone(s.known, kind);
    SpentExactly(run, false, onCreate, onSuccess, kind, b);
    assert b in onCreate + onSuccess;
    SettlingIsExact(store, false, s.attempt.out, onCreate, onSuccess, node, member, slot, b);
  }

  lemma SpentOnce(store: Store, spend: seq<Bucket>, release: seq<Bucket>, node: string, member: string, slot: nat -> Slot, i: nat)
    requires DistinctKeys(spend) && i < |spend| && OthersForeign(slot, member)
    ensures forall j :: 0 <= j < |spend| && j != i ==> Leaves(store, spend, node, member, slot, j, spend[i].key)
    ensures if slot(i).up
            then SpendsOne(store, spend, node, member, slot, i, spend[i]) && Unheld(Released(store, spend, release, node, member, slot).inflight, spend[i].key, node, member)
            else Leaves(store, spend, node, member, slot, i, spend[i].key)
  {
    if slot(i).up {
      CommittedStaysUnheld(store, spend, node, member, slot, i, |spend|);
      DropAllStaysUnheld(Before(store, spend, node, member, slot, |spend|).inflight, release, node, member, slot(|spend|).at.write, spend[i].key, node, member);
    }
  }

  lemma ReleasedOnly(store: Store, spend: seq<Bucket>, release: seq<Bucket>, node: string, member: string, slot: nat -> Slot, b: Bucket)
    requires HasKey(release, b.key) && forall j :: 0 <= j < |spend| ==> spend[j].key != b.key
    ensures forall j :: 0 <= j < |spend| ==> Leaves(store, spend, node, member, slot, j, b.key)
    ensures slot(|spend|).up ==> Unheld(Released(store, spend, release, node, member, slot).inflight, b.key, node, member)
  {
    DropAllRemoves(Before(store, spend, node, member, slot, |spend|).inflight, release, node, member, slot(|spend|).at.write, b.key);
  }

  // ----- backing off -----

  function Doubled(n: nat): int {
    if n == 0 then 1 else 2 * Doubled(n - 1)
  }

  lemma {:induction false} DoubledGrows(m: nat, n: nat)
    requires m <= n
    ensures 1 <= Doubled(m) <= Doubled(n)
  {
    if n > 0 {
      DoubledGrows(if m < n then m else n - 1, n - 1);
    }
  }

  /** The backoff after n failures in a row doubles from the initial delay and stops at the maximum. */
  method Backoff(initial: int, maxDelay: int, n: int) returns (d: int)
    requires initial >= 0
    ensures var streak := if n < 1 then 1 else n;
            d == if initial * Doubled(streak - 1) <= maxDelay then initial * Doubled(streak - 1) else maxDelay
  {
    var streak := if n < 1 then 1 else n;
    d := initial;
    var i := 1;
    while i < streak
      invariant 1 <= i <= streak
      invariant d == initial * Doubled(i - 1)
    {
      d := d * 2;
      assert d == initial * Doubled(i);
      if d >= maxDelay {
        DoubledGrows(i, streak - 1);
        assert initial * Doubled(i) <= initial * Doubled(streak - 1);
        return maxDelay;
      }
      i := i + 1;
    }
    if d > maxDelay {
      return maxDelay;
    }
  }
}
