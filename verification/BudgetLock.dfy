/**
 The budget lock of internal/limit/acme_budget.go, command by command: a key set only if absent that
 expires on its own, a section that reads and then writes, and a release that reads the key back and
 deletes it only if it still holds the section's own token. Orders release their holds without it.

 As long as a section's commands run before its lock expires, every write acts on what its section
 read: the sections take effect one at a time, each at its write.
 */
module BudgetLock {
  import opened Basics
  import opened TokenBucket
  import opened Budget

  const LOCK_TTL: int := 2 * SECOND

  datatype Section =
    | TakeSection(bs: seq<Bucket>)
    | PrepaySection(b: Bucket, n: int)
    | RefundSection(b: Bucket, n: int)
    | ResyncSection(bs: seq<Bucket>, retryAfter: int)
    | CommitSection(b: Bucket, node: string, member: string)
    | ReserveSection(bs: seq<Bucket>, node: string, member: string, deadline: int, live: seq<string>)

  datatype Store = Store(levels: Levels, inflight: Inflight)

  /** What a section read, when, and its node's reading. */
  datatype Seen = Seen(store: Store, now: int, read: int)

  datatype Pc =
    | Outside
    | Entered(token: nat, until: int, sec: Section)
    | Decided(token: nat, until: int, sec: Section, seen: Seen)
    | Returned(token: nat, until: int)
    | OwnToken(token: nat, until: int)

  datatype Lock = Lock(token: nat, until: int)

  /** `intruded`: some release deleted the lock of another process that was still inside its section. */
  datatype Sys = Sys(time: int, store: Store, lock: Option<Lock>, procs: seq<Pc>, minted: nat, intruded: bool)

  datatype Action =
    | SetNX(p: nat, sec: Section, at: int)
    | Read(p: nat, now: int, at: int)
    | Write(p: nat, at: int)
    | Get(p: nat, at: int)
    | Del(p: nat, at: int)
    | Leave(p: nat, at: int)                                              // an error, or a crash: no release
    | Free(bs: seq<Bucket>, node: string, member: string, at: int)        // ReleaseACME, outside the lock

  // ----- sections, as one atomic action each -----

  predicate Admits(sec: Section, store: Store, now: int, read: int) {
    match sec
    case ReserveSection(bs, node, member, deadline, live) => Reserve(store.levels, store.inflight, bs, node, member, deadline, live, now, read, read, read).0
    case _ => true
  }

  /** The effect of a section that runs in one piece. */
  function Atomically(sec: Section, store: Store, now: int, read: int, write: int): Store {
    match sec
    case TakeSection(bs) => store.(levels := Take(store.levels, bs, now, read, write).1)
    case PrepaySection(b, n) => store.(levels := Prepay(store.levels, b, n, now, read, write).2)
    case RefundSection(b, n) => store.(levels := Refund(store.levels, b, n, now, read, write))
    case ResyncSection(bs, d) => store.(levels := ResyncAll(store.levels, bs, d, now, write))
    case CommitSection(b, node, member) => Store(Commit(store.levels, b, now, read, write), Drop(store.inflight, b, node, member, write))
    case ReserveSection(bs, node, member, deadline, live) => store.(inflight := HoldAll(store.inflight, bs, node, member, deadline, write, now))
  }

  /** The entries a section's write command carries, computed from what it read. */
  function Entries(sec: Section, seen: Seen, write: int): Levels {
    var levels, now, read := seen.store.levels, seen.now, seen.read;
    match sec
    case TakeSection(bs) => if Take(levels, bs, now, read, write).0 > 0 then map[] else SpendAll(map[], bs, Views(levels, bs, read, now), now, write)
    case PrepaySection(b, n) => if Prepay(levels, b, n, now, read, write).0 == 0 then map[]
                                else map[b.key := Prepay(levels, b, n, now, read, write).2[b.key]]
    case RefundSection(b, n) => if n <= 0 || now < View(levels, b, read, now).at then map[]
                                else map[b.key := Refund(levels, b, n, now, read, write)[b.key]]
    case ResyncSection(bs, d) => ResyncAll(map[], bs, d, now, write)
    case CommitSection(b, _, _) => map[b.key := Commit(levels, b, now, read, write)[b.key]]
    case ReserveSection(_, _, _, _, _) => map[]
  }

  function Written(sec: Section, store: Store, seen: Seen, write: int): Store {
    var levels := store.levels + Entries(sec, seen, write);
    match sec
    case CommitSection(b, node, member) => Store(levels, Drop(store.inflight, b, node, member, write))
    case ReserveSection(bs, node, member, deadline, live) =>
      if Admits(sec, seen.store, seen.now, seen.read)
      then Store(levels, HoldAll(store.inflight, bs, node, member, deadline, write, seen.now)) else Store(levels, store.inflight)
    case _ => Store(levels, store.inflight)
  }

  /** A reservation's read drops the expired holds it counts past; other sections read and change nothing. */
  function Swept(sec: Section, store: Store, now: int, read: int): Store {
    match sec
    case ReserveSection(bs, _, _, _, live) => store.(inflight := PurgedAll(store.inflight, bs, live, read, now))
    case _ => store
  }

  // ----- the machine -----

  predicate Held(s: Sys, at: int) {
    s.lock.Some? && at < s.lock.value.until
  }

  predicate Inside(s: Sys, p: nat, at: int) {
    p < |s.procs| && !s.procs[p].Outside? && at < s.procs[p].until
  }

  /** The release read its own token, but deletes the key when another process is inside already. */
  predicate Intrudes(s: Sys, a: Action) {
    a.Del? && exists q :: 0 <= q < |s.procs| && q != a.p && Inside(s, q, a.at)
  }

  ghost predicate Enabled(s: Sys, a: Action) {
    && a.at >= s.time
    && (!a.Free? ==> a.p < |s.procs|)
    && match a
       case SetNX(p, _, at) => s.procs[p].Outside?
       case Read(p, _, at) => s.procs[p].Entered? && at < s.procs[p].until
       case Write(p, at) => s.procs[p].Decided? && at < s.procs[p].until
       case Get(p, at) => s.procs[p].Returned?
       case Del(p, at) => s.procs[p].OwnToken?
       case Leave(p, at) => true
       case Free(_, _, _, _) => true
  }

  ghost function Step(s: Sys, a: Action): Sys
    requires Enabled(s, a)
  {
    match a
    case SetNX(p, sec, at) =>
      if Held(s, at) then s.(time := at)
      else s.(time := at, lock := Some(Lock(s.minted, at + LOCK_TTL)), minted := s.minted + 1,
              procs := s.procs[p := Entered(s.minted, at + LOCK_TTL, sec)])
    case Read(p, now, at) =>
      var pc := s.procs[p];
      s.(time := at, store := Swept(pc.sec, s.store, now, at),
         procs := s.procs[p := Decided(pc.token, pc.until, pc.sec, Seen(Swept(pc.sec, s.store, now, at), now, at))])
    case Write(p, at) =>
      var pc := s.procs[p];
      s.(time := at, store := Written(pc.sec, s.store, pc.seen, at), procs := s.procs[p := Returned(pc.token, pc.until)])
    case Get(p, at) =>
      var pc := s.procs[p];
      s.(time := at, procs := s.procs[p := if Held(s, at) && s.lock.value.token == pc.token then OwnToken(pc.token, pc.until) else Outside])
    case Del(p, at) => s.(time := at, lock := None, procs := s.procs[p := Outside], intruded := s.intruded || Intrudes(s, a))
    case Leave(p, at) => s.(time := at, procs := s.procs[p := Outside])
    case Free(bs, node, member, at) => s.(time := at, store := s.store.(inflight := DropAll(s.store.inflight, bs, node, member, at)))
  }

  // ----- the invariant -----

  /** Holds may have been released since a section counted them; none was added. */
  ghost predicate Fewer(later: Inflight, earlier: Inflight) {
    forall k :: k in later ==>
      && k in earlier && later[k].expires == earlier[k].expires
      && (forall m :: m in later[k].members ==> m in earlier[k].members && later[k].members[m] == earlier[k].members[m])
  }

  /** Every process inside a section whose lock has not expired holds the lock, under its own token. */
  ghost predicate LockInv(s: Sys) {
    && (s.lock.Some? ==> s.lock.value.token < s.minted)
    && (forall p :: 0 <= p < |s.procs| && !s.procs[p].Outside? ==>
          && s.procs[p].token < s.minted
          && (s.time < s.procs[p].until ==> s.lock == Some(Lock(s.procs[p].token, s.procs[p].until))))
    && (forall p, q :: 0 <= p < q < |s.procs| && !s.procs[p].Outside? && !s.procs[q].Outside? ==> s.procs[p].token != s.procs[q].token)
  }

  /** What a section read is still what the store holds, but for holds released meanwhile. */
  ghost predicate Current(store: Store, pc: Pc, time: int) {
    pc.Decided? && time < pc.until ==> store.levels == pc.seen.store.levels && Fewer(store.inflight, pc.seen.store.inflight)
  }

  ghost predicate Inv(s: Sys) {
    !s.intruded ==> LockInv(s) && forall p :: 0 <= p < |s.procs| ==> Current(s.store, s.procs[p], s.time)
  }

  /** No two processes are inside sections whose locks have not expired. */
  lemma MutualExclusion(s: Sys, p: nat, q: nat)
    requires LockInv(s) && p < |s.procs| && q < |s.procs| && !s.procs[p].Outside? && !s.procs[q].Outside?
    requires s.time < s.procs[p].until && s.time < s.procs[q].until
    ensures p == q
  {
    assert s.procs[p].token == s.procs[q].token;
  }

  lemma {:induction false} DropAllIsFewer(inflight: Inflight, bs: seq<Bucket>, node: string, member: string, server: int)
    ensures Fewer(DropAll(inflight, bs, node, member, server), inflight)
  {
    if bs != [] {
      DropAllIsFewer(inflight, bs[..|bs| - 1], node, member, server);
    }
  }

  lemma StepKeepsLockInv(s: Sys, a: Action)
    requires LockInv(s) && Enabled(s, a) && !Intrudes(s, a)
    ensures LockInv(Step(s, a))
  {
    if a.Del? {
      forall q | 0 <= q < |s.procs| && q != a.p && !s.procs[q].Outside?
        ensures a.at >= s.procs[q].until
      {
        assert Inside(s, q, a.at) ==> Intrudes(s, a);
      }
    }
  }

  /** A release in time for its own lock never deletes another's. */
  lemma TimelyReleaseDoesNotIntrude(s: Sys, a: Action)
    requires LockInv(s) && Enabled(s, a) && a.Del? && a.at < s.procs[a.p].until
    ensures !Intrudes(s, a)
  {
    forall q | 0 <= q < |s.procs| && Inside(s, q, a.at)
      ensures q == a.p
    {
      MutualExclusion(s, a.p, q);
    }
  }

  lemma StepKeepsCurrent(s: Sys, a: Action, q: nat)
    requires !s.intruded && Inv(s) && Enabled(s, a) && q < |s.procs|
    ensures Current(Step(s, a).store, Step(s, a).procs[q], a.at)
  {
    assert Current(s.store, s.procs[q], s.time);
    if a.Free? {
      DropAllIsFewer(s.store.inflight, a.bs, a.node, a.member, a.at);
    } else if (a.Read? || a.Write?) && q != a.p && s.procs[q].Decided? && a.at < s.procs[q].until {
      MutualExclusion(s, a.p, q);
    }
  }

  lemma StepKeepsInv(s: Sys, a: Action)
    requires Inv(s) && Enabled(s, a)
    ensures Inv(Step(s, a))
  {
    var s' := Step(s, a);
    if !s'.intruded {
      StepKeepsLockInv(s, a);
      forall q | 0 <= q < |s'.procs|
        ensures Current(s'.store, s'.procs[q], s'.time)
      {
        StepKeepsCurrent(s, a, q);
      }
    }
  }

  // ----- a write acts on what its section read -----

  lemma {:induction false} SpendAllIsUpdate(levels: Levels, bs: seq<Bucket>, vs: seq<Level>, now: int, server: int)
    requires |bs| == |vs|
    ensures SpendAll(levels, bs, vs, now, server) == levels + SpendAll(map[], bs, vs, now, server)
  {
    if bs != [] {
      SpendAllIsUpdate(levels, bs[..|bs| - 1], vs[..|bs| - 1], now, server);
    }
  }

  lemma {:induction false} ResyncAllIsUpdate(levels: Levels, bs: seq<Bucket>, d: int, now: int, server: int)
    ensures ResyncAll(levels, bs, d, now, server) == levels + ResyncAll(map[], bs, d, now, server)
  {
    if bs != [] {
      ResyncAllIsUpdate(levels, bs[..|bs| - 1], d, now, server);
    }
  }

  lemma EntriesAreTheUpdate(sec: Section, store: Store, seen: Seen, write: int)
    requires store.levels == seen.store.levels
    ensures store.levels + Entries(sec, seen, write) == Atomically(sec, store, seen.now, seen.read, write).levels
  {
    match sec
    case TakeSection(bs) => SpendAllIsUpdate(store.levels, bs, Views(store.levels, bs, seen.read, seen.now), seen.now, write);
    case ResyncSection(bs, d) => ResyncAllIsUpdate(store.levels, bs, d, seen.now, write);
    case _ =>
  }

  lemma FewerCounted(later: Inflight, earlier: Inflight, b: Bucket, node: string, server: int, now: int)
    requires Fewer(later, earlier)
    ensures |Counted(later, b, node, server, now)| <= |Counted(earlier, b, node, server, now)|
  {
    var l, e := Counted(later, b, node, server, now), Counted(earlier, b, node, server, now);
    assert l.Keys <= e.Keys;
    assert e.Keys == l.Keys + (e.Keys - l.Keys);
    assert |l.Keys| == |l| && |e.Keys| == |e|;
  }

  lemma {:induction false} FewerHeld(later: Inflight, earlier: Inflight, b: Bucket, live: seq<string>, server: int, now: int)
    requires Fewer(later, earlier)
    ensures HeldOn(later, b, live, server, now) <= HeldOn(earlier, b, live, server, now)
  {
    if live != [] {
      FewerHeld(later, earlier, b, live[..|live| - 1], server, now);
      FewerCounted(later, earlier, b, live[|live| - 1], server, now);
    }
  }

  lemma StillAdmits(sec: Section, store: Store, seen: Seen)
    requires store.levels == seen.store.levels && Fewer(store.inflight, seen.store.inflight)
    requires Admits(sec, seen.store, seen.now, seen.read)
    ensures Admits(sec, store, seen.now, seen.read)
  {
    match sec
    case ReserveSection(bs, _, _, _, live) =>
      forall i | 0 <= i < |bs|
        ensures HeldOn(store.inflight, bs[i], live, seen.read, seen.now) <= HeldOn(seen.store.inflight, bs[i], live, seen.read, seen.now)
      {
        FewerHeld(store.inflight, seen.store.inflight, bs[i], live, seen.read, seen.now);
      }
    case _ =>
  }

  ghost predicate Legal(s: Sys, run: seq<Action>)
    decreases |run|
  {
    run == [] || (Enabled(s, run[0]) && Legal(Step(s, run[0]), run[1..]))
  }

  ghost function Exec(s: Sys, run: seq<Action>): Sys
    requires Legal(s, run)
    decreases |run|
  {
    if run == [] then s else Exec(Step(s, run[0]), run[1..])
  }

  lemma {:induction false} RunKeepsInv(s: Sys, run: seq<Action>)
    requires Legal(s, run) && Inv(s)
    ensures Inv(Exec(s, run))
    decreases |run|
  {
    if run != [] {
      StepKeepsInv(s, run[0]);
      RunKeepsInv(Step(s, run[0]), run[1..]);
    }
  }

  ghost predicate Fresh(s: Sys) {
    s.lock.None? && forall p :: 0 <= p < |s.procs| ==> s.procs[p].Outside?
  }

  /**
   Whatever interleaving led here, a section's write has the effect of the whole section run in one
   piece on the store of this moment; a reservation that was admitted is still admissible now, and one
   that was refused writes nothing. No other step changes a level.
   */
  lemma SectionsAreAtomic(s0: Sys, run: seq<Action>, a: Action)
    requires Fresh(s0) && Legal(s0, run) && Enabled(Exec(s0, run), a) && !Exec(s0, run).intruded
    ensures var s := Exec(s0, run);
            var s' := Step(s, a);
            if a.Write? then
              var sec, seen := s.procs[a.p].sec, s.procs[a.p].seen;
              if Admits(sec, seen.store, seen.now, seen.read)
              then Admits(sec, s.store, seen.now, seen.read) && s'.store == Atomically(sec, s.store, seen.now, seen.read, a.at)
              else s'.store == s.store
            else s'.store.levels == s.store.levels
  {
    RunKeepsInv(s0, run);
    var s := Exec(s0, run);
    if a.Write? {
      var sec, seen := s.procs[a.p].sec, s.procs[a.p].seen;
      assert Current(s.store, s.procs[a.p], s.time);
      EntriesAreTheUpdate(sec, s.store, seen, a.at);
      if Admits(sec, seen.store, seen.now, seen.read) {
        StillAdmits(sec, s.store, seen);
      }
    }
  }

  /** Both locks and sections in one run: while no release has intruded, no two processes hold unexpired sections. */
  lemma ReachableMutualExclusion(s0: Sys, run: seq<Action>, p: nat, q: nat)
    requires Fresh(s0) && Legal(s0, run) && !Exec(s0, run).intruded
    requires var s := Exec(s0, run); Inside(s, p, s.time) && Inside(s, q, s.time)
    ensures p == q
  {
    RunKeepsInv(s0, run);
    MutualExclusion(Exec(s0, run), p, q);
  }

  /** Every process inside holds the lock. */
  ghost predicate InsideHoldLock(s: Sys) {
    forall p: nat :: Inside(s, p, s.time) ==> s.lock == Some(Lock(s.procs[p].token, s.procs[p].until))
  }

  /**
   The exact condition: as long as none has, the step after which a process is inside without the lock is a release
   that deletes the key when another process is inside. A release that runs before its own lock expires is none.
   */
  lemma LockIsLostExactly(s0: Sys, run: seq<Action>, a: Action)
    requires Fresh(s0) && Legal(s0, run) && !Exec(s0, run).intruded && Enabled(Exec(s0, run), a)
    ensures var s := Exec(s0, run);
            && (InsideHoldLock(Step(s, a)) <==> !Intrudes(s, a))
            && (a.Del? && a.at < s.procs[a.p].until ==> !Intrudes(s, a))
  {
    RunKeepsInv(s0, run);
    var s := Exec(s0, run);
    if Intrudes(s, a) {
      var q :| 0 <= q < |s.procs| && q != a.p && Inside(s, q, a.at);
      assert Inside(Step(s, a), q, a.at);
    } else {
      StepKeepsLockInv(s, a);
    }
    if a.Del? && a.at < s.procs[a.p].until {
      TimelyReleaseDoesNotIntrude(s, a);
    }
  }

  lemma {:induction false} OneMore(s: Sys, run: seq<Action>, a: Action)
    requires Legal(s, run) && Enabled(Exec(s, run), a)
    ensures Legal(s, run + [a]) && Exec(s, run + [a]) == Step(Exec(s, run), a)
    decreases |run|
  {
    if run == [] {
      assert run + [a] == [a] && [a][1..] == [];
    } else {
      OneMore(Step(s, run[0]), run[1..], a);
      assert (run + [a])[1..] == run[1..] + [a];
    }
  }

  ghost predicate Reaches(s: Sys, t: Sys) {
    exists run :: Legal(s, run) && Exec(s, run) == t
  }

  lemma ReachStep(s0: Sys, s: Sys, a: Action)
    requires Reaches(s0, s) && Enabled(s, a)
    ensures Reaches(s0, Step(s, a))
  {
    var run :| Legal(s0, run) && Exec(s0, run) == s;
    OneMore(s0, run, a);
  }

  const THREE := Sys(0, Store(map[], map[]), None, [Outside, Outside, Outside], 0, false)

  const EMPTY_SECTION := TakeSection([])

  const BUSY := THREE.(lock := Some(Lock(0, LOCK_TTL)), minted := 1)

  lemma Enters()
    ensures Reaches(THREE, BUSY.(procs := [Decided(0, LOCK_TTL, EMPTY_SECTION, Seen(THREE.store, 0, 0)), Outside, Outside]))
  {
    assert Legal(THREE, []) && Exec(THREE, []) == THREE;
    ReachStep(THREE, THREE, SetNX(0, EMPTY_SECTION, 0));
    var s1 := BUSY.(procs := [Entered(0, LOCK_TTL, EMPTY_SECTION), Outside, Outside]);
    assert Step(THREE, SetNX(0, EMPTY_SECTION, 0)) == s1;
    ReachStep(THREE, s1, Read(0, 0, 0));
  }

  lemma WritesNothing()
    ensures Written(EMPTY_SECTION, THREE.store, Seen(THREE.store, 0, 0), 0) == THREE.store
  {
    assert Views(map[], [], 0, 0) == [];
  }

  /** The first process has finished and read its own token back. */
  lemma ReadsOwnToken()
    ensures Reaches(THREE, BUSY.(procs := [OwnToken(0, LOCK_TTL), Outside, Outside]))
  {
    hide Written;
    Enters();
    WritesNothing();
    var s2 := BUSY.(procs := [Decided(0, LOCK_TTL, EMPTY_SECTION, Seen(THREE.store, 0, 0)), Outside, Outside]);
    ReachStep(THREE, s2, Write(0, 0));
    var s3 := BUSY.(procs := [Returned(0, LOCK_TTL), Outside, Outside]);
    assert Step(s2, Write(0, 0)) == s3;
    ReachStep(THREE, s3, Get(0, 0));
  }

  /** A release that reads its own token and deletes the key after it expired lets two processes in. */
  lemma LateReleaseLetsTwoIn()
    ensures exists s :: Reaches(THREE, s) && Inside(s, 1, s.time) && Inside(s, 2, s.time)
  {
    ReadsOwnToken();
    var until := 2 * LOCK_TTL;
    var s1 := BUSY.(procs := [OwnToken(0, LOCK_TTL), Outside, Outside]);
    ReachStep(THREE, s1, SetNX(1, EMPTY_SECTION, LOCK_TTL));
    var s2 := s1.(time := LOCK_TTL, lock := Some(Lock(1, until)), procs := [OwnToken(0, LOCK_TTL), Entered(1, until, EMPTY_SECTION), Outside], minted := 2);
    ReachStep(THREE, s2, Del(0, LOCK_TTL));
    var s3 := Step(s2, Del(0, LOCK_TTL));
    ReachStep(THREE, s3, SetNX(2, EMPTY_SECTION, LOCK_TTL));
    var s4 := Step(s3, SetNX(2, EMPTY_SECTION, LOCK_TTL));
    assert Inside(s4, 1, s4.time) && Inside(s4, 2, s4.time);
  }
}
