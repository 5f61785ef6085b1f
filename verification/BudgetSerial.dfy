/**
 From commands to sections: a run of lock, read, write and release commands of any processes is, on the store, a serial
 run of whole sections. This is what lets the budget machines take a section for one step.
 */
module BudgetSerial {
  import opened TokenBucket
  import opened Budget
  import opened BudgetLock

  /** What takes effect on the store: a reservation's sweep of expired places, a whole section, or a release outside the lock. */
  datatype Event =
    | SweepDone(sec: Section, now: int, read: int)
    | SectionDone(sec: Section, now: int, read: int, write: int)
    | FreeDone(bs: seq<Bucket>, node: string, member: string, at: int)

  function Effect(store: Store, e: Event): Store {
    match e
    case SweepDone(sec, now, read) => Swept(sec, store, now, read)
    case SectionDone(sec, now, read, write) => Atomically(sec, store, now, read, write)
    case FreeDone(bs, node, member, at) => store.(inflight := DropAll(store.inflight, bs, node, member, at))
  }

  function Replay(store: Store, log: seq<Event>): Store
    decreases |log|
  {
    if log == [] then store else Replay(Effect(store, log[0]), log[1..])
  }

  /** The server time of the last write of a section. */
  function WrittenBy(floor: int, e: Event): int {
    if e.SectionDone? then e.write else floor
  }

  /**
   The events in the order in which they take effect: every section is admissible on the store it finds, and reads no
   earlier than the section before it wrote.
   */
  predicate Serial(store: Store, log: seq<Event>, floor: int)
    decreases |log|
  {
    log == [] ||
    (&& (log[0].SectionDone? ==> floor <= log[0].read <= log[0].write && Admits(log[0].sec, store, log[0].now, log[0].read))
     && Serial(Effect(store, log[0]), log[1..], WrittenBy(floor, log[0])))
  }

  /** The event of one command, if it has an effect. A section that is refused has none. */
  ghost function EventsOf(s: Sys, a: Action): seq<Event>
    requires Enabled(s, a)
  {
    match a
    case Read(p, now, at) => [SweepDone(s.procs[p].sec, now, at)]
    case Write(p, at) =>
      var sec, seen := s.procs[p].sec, s.procs[p].seen;
      if Admits(sec, seen.store, seen.now, seen.read) then [SectionDone(sec, seen.now, seen.read, at)] else []
    case Free(bs, node, member, at) => [FreeDone(bs, node, member, at)]
    case _ => []
  }

  ghost function Log(s: Sys, run: seq<Action>): seq<Event>
    requires Legal(s, run)
    decreases |run|
  {
    if run == [] then [] else EventsOf(s, run[0]) + Log(Step(s, run[0]), run[1..])
  }

  /** Every section inside its lock has read after the last write. */
  ghost predicate ReadAfter(s: Sys, floor: int) {
    && floor <= s.time
    && forall p :: 0 <= p < |s.procs| && s.procs[p].Decided? && s.time < s.procs[p].until ==> floor <= s.procs[p].seen.read <= s.time
  }

  ghost function FloorAfter(s: Sys, a: Action, floor: int): int
    requires Enabled(s, a)
  {
    if EventsOf(s, a) == [] then floor else WrittenBy(floor, EventsOf(s, a)[0])
  }

  lemma StepReadsAfter(s: Sys, a: Action, floor: int)
    requires LockInv(s) && Enabled(s, a) && ReadAfter(s, floor)
    ensures ReadAfter(Step(s, a), FloorAfter(s, a, floor))
  {
    hide Admits, Written, Swept;
    var t := Step(s, a);
    forall q | 0 <= q < |t.procs| && t.procs[q].Decided? && t.time < t.procs[q].until
      ensures FloorAfter(s, a, floor) <= t.procs[q].seen.read <= t.time
    {
      if a.Write? && q != a.p {
        MutualExclusion(s, a.p, q);
      }
    }
  }

  /** A command's effect on the store is that of its event, and a section that writes is admissible at that moment. */
  lemma StepIsItsEvent(s: Sys, a: Action)
    requires Inv(s) && !s.intruded && Enabled(s, a)
    ensures Step(s, a).store == Replay(s.store, EventsOf(s, a))
    ensures a.Write? && EventsOf(s, a) != [] ==> Admits(s.procs[a.p].sec, s.store, s.procs[a.p].seen.now, s.procs[a.p].seen.read)
  {
    hide Admits, Swept, Atomically, Written;
    if a.Write? {
      var sec, seen := s.procs[a.p].sec, s.procs[a.p].seen;
      assert Current(s.store, s.procs[a.p], s.time);
      if Admits(sec, seen.store, seen.now, seen.read) {
        StillAdmits(sec, s.store, seen);
      }
      WriteIsAtomic(sec, s.store, seen, a.at);
    }
    if EventsOf(s, a) != [] {
      ReplayOne(s.store, EventsOf(s, a)[0]);
      assert EventsOf(s, a) == [EventsOf(s, a)[0]];
    }
  }

  lemma WriteIsAtomic(sec: Section, store: Store, seen: Seen, write: int)
    requires store.levels == seen.store.levels
    ensures Written(sec, store, seen, write) ==
            if Admits(sec, seen.store, seen.now, seen.read) then Atomically(sec, store, seen.now, seen.read, write) else store
  {
    EntriesAreTheUpdate(sec, store, seen, write);
  }

  lemma ReplayOne(store: Store, e: Event)
    ensures Replay(store, [e]) == Effect(store, e)
  {
    assert [e][1..] == [];
  }

  lemma OneMoreEvent(store: Store, e: Event, log: seq<Event>)
    ensures Replay(store, [e] + log) == Replay(Effect(store, e), log)
    ensures forall floor :: Serial(store, [e] + log, floor) <==>
              && (e.SectionDone? ==> floor <= e.read <= e.write && Admits(e.sec, store, e.now, e.read))
              && Serial(Effect(store, e), log, WrittenBy(floor, e))
  {
    assert ([e] + log)[0] == e && ([e] + log)[1..] == log;
  }

  lemma {:induction false} IntrusionStays(s: Sys, run: seq<Action>)
    requires Legal(s, run) && s.intruded
    ensures Exec(s, run).intruded
    decreases |run|
  {
    if run != [] {
      IntrusionStays(Step(s, run[0]), run[1..]);
    }
  }

  lemma {:induction false} RunIsSerial(s: Sys, run: seq<Action>, floor: int)
    requires Legal(s, run) && Inv(s) && ReadAfter(s, floor) && !Exec(s, run).intruded
    ensures Serial(s.store, Log(s, run), floor) && Exec(s, run).store == Replay(s.store, Log(s, run))
    decreases |run|
  {
    hide Inv, ReadAfter, Step, Enabled, Effect, Admits;
    if run != [] {
      if s.intruded {
        IntrusionStays(s, run);
      } else {
        var a, t := run[0], Step(s, run[0]);
        StepIsItsEvent(s, a);
        StepKeepsInv(s, a);
        NoIntrusion(s);
        StepReadsAfter(s, a, floor);
        RunIsSerial(t, run[1..], FloorAfter(s, a, floor));
        JoinLog(s, a, Log(t, run[1..]), floor);
      }
    }
  }

  lemma NoIntrusion(s: Sys)
    requires Inv(s) && !s.intruded
    ensures LockInv(s)
  {
  }

  lemma JoinLog(s: Sys, a: Action, log: seq<Event>, floor: int)
    requires Inv(s) && !s.intruded && Enabled(s, a) && ReadAfter(s, floor)
    requires Serial(Step(s, a).store, log, FloorAfter(s, a, floor))
    ensures Serial(s.store, EventsOf(s, a) + log, floor)
    ensures Replay(s.store, EventsOf(s, a) + log) == Replay(Step(s, a).store, log)
  {
    hide Admits, Effect, Inv, Serial, Replay;
    StepIsItsEvent(s, a);
    var es := EventsOf(s, a);
    if es == [] {
      assert es + log == log;
      ReplayNothing(s.store);
    } else {
      var e := es[0];
      assert es == [e];
      ReplayOne(s.store, e);
      OneMoreEvent(s.store, e, log);
    }
  }

  lemma ReplayNothing(store: Store)
    ensures Replay(store, []) == store
  {
  }

  /**
   Every run of commands in which no release deletes another section's lock leaves the store that its sections leave when
   they run whole, one after the other, in the order of their writes: each admissible on the store it finds, and each
   reading no earlier than the one before it wrote.
   */
  lemma SectionsAreSerial(s0: Sys, run: seq<Action>)
    requires Fresh(s0) && Legal(s0, run) && !Exec(s0, run).intruded
    ensures Serial(s0.store, Log(s0, run), s0.time) && Exec(s0, run).store == Replay(s0.store, Log(s0, run))
  {
    RunIsSerial(s0, run, s0.time);
  }
}
