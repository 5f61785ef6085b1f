/**
 The cap on a tunnel's open streams (internal/limit/concurrency.go, internal/edge/bridge.go). The slots are
 members of one sorted set, scored with the instant they expire, under a key that expires as a whole. Purging,
 adding, counting, prolonging and undoing are separate commands, and the commands of all nodes interleave. Node
 readings differ from the server time of the commands they drive by no more than the skew.
 */
module StreamCap {
  import opened Basics
  import opened TokenBucket

  datatype Config = Config(cap: int, ttl: int, skew: Skew)

  datatype Pc = Start | Purged | Added | Counted(ok: bool) | Undoing | Refused | Admitted

  /**
   `reading` is the reading of the stream's last acquisition or refresh, `scored` when its score was last written and
   `prolonged` when it last prolonged the key since then. `evicted` is the flag evictors compare and swap, `winner` the
   evictor that set it and has not released yet, `once` the release-once guard.
   */
  datatype Stream = Stream(pc: Pc, reading: int, scored: int, prolonged: Option<int>, evicted: bool, winner: bool, once: bool, evictions: nat, releases: nat)

  const FRESH := Stream(Start, 0, 0, None, false, false, false, 0, 0)

  /** `members` maps a stream to its score in milliseconds; `expires` is when the key goes, if it was given a lifetime. */
  datatype Sys = Sys(time: int, members: map<nat, int>, expires: Option<int>, streams: seq<Stream>)

  datatype Action =
    | Purge(i: nat, now: int, at: int)          // the commands of an acquisition, in this order
    | Add(i: nat, at: int)
    | Count(i: nat, at: int)
    | Prolong(i: nat, at: int)
    | Undo(i: nat, ok: bool, at: int)
    | Retry(i: nat, at: int)
    | Refresh(i: nat, now: int, at: int)        // with every chunk that is charged
    | RefreshKey(i: nat, at: int)
    | TrySwap(i: nat, at: int)                  // an evictor picked i and swaps its flag
    | EvictRelease(i: nat, ok: bool, at: int)   // the evictor that won releases the slot
    | OwnRelease(i: nat, ok: bool, at: int)     // the stream's own deferred release

  /** Where a stream must stand for an action of its own, or on it, to come next. */
  predicate Starts(x: Stream, a: Action) {
    match a
    case Purge(_, _, _) => x.pc.Start?
    case Add(_, _) => x.pc.Purged?
    case Count(_, _) => x.pc.Added?
    case Prolong(_, _) => x.pc.Counted?
    case Undo(_, _, _) => x.pc.Undoing?
    case Retry(_, _) => x.pc.Refused?
    case EvictRelease(_, _, _) => x.winner
    case _ => x.pc.Admitted?
  }

  predicate Enabled(cfg: Config, s: Sys, a: Action) {
    && s.time <= a.at && a.i < |s.streams| && Starts(s.streams[a.i], a)
    && (a.Purge? || a.Refresh? ==> cfg.skew.Reads(a.at, a.now))
    && (a.Add? ==> cfg.skew.Reads(a.at, s.streams[a.i].reading))
  }

  /** A lifetime is sent in whole milliseconds, and at least one. */
  function Millis(d: int): int {
    if 0 < d < MILLISECOND then MILLISECOND else FloorMs(d)
  }

  function Score(cfg: Config, reading: int): int {
    (reading + cfg.ttl) / MILLISECOND
  }

  predicate KeyGone(s: Sys, at: int) {
    s.expires.Some? && at >= s.expires.value
  }

  /** The store as a command at this instant finds it. */
  function AtTime(s: Sys, at: int): Sys {
    if KeyGone(s, at) then s.(time := at, members := map[], expires := None) else s.(time := at)
  }

  /** The sorted set: its members, and the lifetime of its key. */
  datatype Slots = Slots(members: map<nat, int>, expires: Option<int>)

  /** Removing the last member removes the key and its lifetime. */
  function WithMembers(s: Sys, members: map<nat, int>): Slots {
    Slots(members, if members == map[] then None else s.expires)
  }

  /** PEXPIRE does nothing to a key that is not there. */
  function Prolonged(cfg: Config, s: Sys): Slots {
    Slots(s.members, if s.members == map[] then s.expires else Some(s.time + Millis(cfg.ttl)))
  }

  /** The members whose score is later than the reading. */
  function Kept(members: map<nat, int>, now: int): map<nat, int> {
    map i | i in members && members[i] > now / MILLISECOND :: members[i]
  }

  /** What an action does to the sorted set as it finds it. The release-once guard: only the first caller removes the member. */
  function NextSlots(cfg: Config, s: Sys, a: Action): Slots
    requires a.i < |s.streams|
  {
    var i, x, same := a.i, s.streams[a.i], Slots(s.members, s.expires);
    match a
    case Purge(_, now, _) => WithMembers(s, Kept(s.members, now))
    case Add(_, _) => Slots(s.members[i := Score(cfg, x.reading)], s.expires)
    case Prolong(_, _) => Prolonged(cfg, s)
    case Undo(_, ok, _) => if ok then WithMembers(s, s.members - {i}) else same
    case Refresh(_, now, _) => if i in s.members then Slots(s.members[i := Score(cfg, now)], s.expires) else same
    case RefreshKey(_, _) => Prolonged(cfg, s)
    case EvictRelease(_, ok, _) => if ok && !x.once then WithMembers(s, s.members - {i}) else same
    case OwnRelease(_, ok, _) => if ok && !x.once then WithMembers(s, s.members - {i}) else same
    case _ => same
  }

  function Released(x: Stream): Stream {
    if x.once then x else x.(once := true, releases := x.releases + 1)
  }

  /** What an action does to its stream: `count` members are in the set, and the stream's is or is not `there`. */
  function NextStream(cfg: Config, x: Stream, a: Action, count: nat, there: bool): Stream {
    match a
    case Purge(_, now, _) => x.(pc := Purged, reading := now)
    case Add(_, at) => x.(pc := Added, scored := at, prolonged := None)
    case Count(_, _) => x.(pc := Counted(count <= cfg.cap))
    case Prolong(_, at) => x.(pc := if x.pc.Counted? && x.pc.ok then Admitted else Undoing, prolonged := Some(at))
    case Undo(_, _, _) => x.(pc := Refused)
    case Retry(_, _) => x.(pc := Start)
    case Refresh(_, now, at) => if there then x.(reading := now, scored := at) else x
    case RefreshKey(_, at) => x.(prolonged := Some(at))
    case TrySwap(_, _) => if x.evicted then x else x.(evicted := true, winner := true, evictions := x.evictions + 1)
    case EvictRelease(_, _, _) => Released(x.(winner := false))
    case OwnRelease(_, _, _) => Released(x)
  }

  function Act(cfg: Config, s: Sys, a: Action): Sys
    requires a.i < |s.streams|
  {
    var slots := NextSlots(cfg, s, a);
    Sys(s.time, slots.members, slots.expires, s.streams[a.i := NextStream(cfg, s.streams[a.i], a, |s.members|, a.i in s.members)])
  }

  function Step(cfg: Config, s: Sys, a: Action): Sys
    requires Enabled(cfg, s, a)
  {
    Act(cfg, AtTime(s, a.at), a)
  }

  predicate Init(s: Sys) {
    s.members == map[] && s.expires == None && forall i :: 0 <= i < |s.streams| ==> s.streams[i] == FRESH
  }

  predicate Legal(cfg: Config, s: Sys, run: seq<Action>)
    decreases |run|
  {
    run == [] || (Enabled(cfg, s, run[0]) && Legal(cfg, Step(cfg, s, run[0]), run[1..]))
  }

  function Exec(cfg: Config, s: Sys, run: seq<Action>): Sys
    requires Legal(cfg, s, run)
    decreases |run|
  {
    if run == [] then s else Exec(cfg, Step(cfg, s, run[0]), run[1..])
  }

  // ----- the cap -----

  /** The stream was counted in and its slot is not released. */
  predicate IsOpen(s: Sys, i: nat) {
    i < |s.streams| && (s.streams[i].pc.Admitted? || s.streams[i].pc == Counted(true)) && !s.streams[i].once
  }

  function Open(s: Sys): set<nat> {
    set i | 0 <= i < |s.streams| && IsOpen(s, i)
  }

  /** Those of them that still hold their member. */
  function Holding(s: Sys): set<nat> {
    set i | i in s.members && IsOpen(s, i)
  }

  ghost predicate CapInv(cfg: Config, s: Sys) {
    |Holding(s)| <= cfg.cap || Holding(s) == {}
  }

  /** Only a count opens a stream, and only an add brings a member. */
  lemma ActOpens(cfg: Config, s: Sys, a: Action, i: nat)
    requires a.i < |s.streams| && Starts(s.streams[a.i], a) && i in Holding(Act(cfg, s, a)) && !(a.Count? && |s.members| <= cfg.cap)
    ensures i in Holding(s)
  {
    hide Score, Millis;
  }

  lemma ActKeepsCap(cfg: Config, s: Sys, a: Action)
    requires CapInv(cfg, s) && a.i < |s.streams| && Starts(s.streams[a.i], a)
    ensures CapInv(cfg, Act(cfg, s, a))
  {
    hide Act, Starts;
    var t := Act(cfg, s, a);
    if a.Count? && |s.members| <= cfg.cap {
      assert t.members == s.members by {
        CountChangesNoMember(cfg, s, a);
      }
      SubsetIsSmaller(Holding(t), t.members.Keys);
      assert |t.members.Keys| == |t.members|;
    } else {
      forall i | i in Holding(t)
        ensures i in Holding(s)
      {
        ActOpens(cfg, s, a, i);
      }
      SubsetIsSmaller(Holding(t), Holding(s));
    }
  }

  lemma CountChangesNoMember(cfg: Config, s: Sys, a: Action)
    requires a.i < |s.streams| && a.Count?
    ensures Act(cfg, s, a).members == s.members
  {
  }

  lemma StepKeepsCap(cfg: Config, s: Sys, a: Action)
    requires CapInv(cfg, s) && Enabled(cfg, s, a)
    ensures CapInv(cfg, Step(cfg, s, a))
  {
    var m := AtTime(s, a.at);
    SubsetIsSmaller(Holding(m), Holding(s));
    ActKeepsCap(cfg, m, a);
  }

  lemma {:induction false} RunKeepsCap(cfg: Config, s: Sys, run: seq<Action>)
    requires CapInv(cfg, s) && Legal(cfg, s, run)
    ensures CapInv(cfg, Exec(cfg, s, run))
    decreases |run|
  {
    if run != [] {
      StepKeepsCap(cfg, s, run[0]);
      RunKeepsCap(cfg, Step(cfg, s, run[0]), run[1..]);
    }
  }

  lemma OpenIsHeldOrLost(cfg: Config, t: Sys)
    requires CapInv(cfg, t)
    ensures |Open(t)| <= Max(0, cfg.cap) + |Open(t) - t.members.Keys|
    ensures Open(t) <= t.members.Keys ==> |Open(t)| <= Max(0, cfg.cap)
  {
    var lost := Open(t) - t.members.Keys;
    assert Open(t) == Holding(t) + lost && Holding(t) !! lost;
    assert Open(t) <= t.members.Keys ==> lost == {};
  }

  /** In every run, whatever the clocks and the silences: open streams exceed the cap by no more than those that lost their member. */
  lemma ExcessIsLostSlots(cfg: Config, s: Sys, run: seq<Action>)
    requires Init(s) && Legal(cfg, s, run)
    ensures var t := Exec(cfg, s, run); |Open(t)| <= Max(0, cfg.cap) + |Open(t) - t.members.Keys|
  {
    assert Holding(s) == {};
    RunKeepsCap(cfg, s, run);
    OpenIsHeldOrLost(cfg, Exec(cfg, s, run));
  }

  // ----- keeping a slot -----

  /** The stream has added its member and still wants it. */
  predicate Wants(x: Stream) {
    (x.pc.Added? || x.pc.Counted? || x.pc.Admitted?) && !x.once
  }

  /** What is known of a member in every run: its score comes from its stream's last reading. */
  ghost predicate Scored(cfg: Config, s: Sys, i: nat) {
    i < |s.streams| && Wants(s.streams[i]) ==>
      && (i in s.members ==> s.members[i] == Score(cfg, s.streams[i].reading))
      && cfg.skew.Reads(s.streams[i].scored, s.streams[i].reading)
  }

  lemma StepKeepsScored(cfg: Config, s: Sys, a: Action, i: nat)
    requires Enabled(cfg, s, a) && Scored(cfg, s, i)
    ensures Scored(cfg, Step(cfg, s, a), i)
  {
    hide Score, Millis;
  }

  lemma {:induction false} RunKeepsScored(cfg: Config, s: Sys, run: seq<Action>, i: nat)
    requires Legal(cfg, s, run) && Scored(cfg, s, i)
    ensures Scored(cfg, Exec(cfg, s, run), i)
    decreases |run|
  {
    if run != [] {
      StepKeepsScored(cfg, s, run[0], i);
      RunKeepsScored(cfg, Step(cfg, s, run[0]), run[1..], i);
    }
  }

  predicate IsRelease(a: Action, i: nat) {
    (a.OwnRelease? || a.EvictRelease?) && a.i == i
  }

  /**
   Exactly when a slot is lost, in every run: a stream that wants its member loses it, other than by its own release, if
   and only if the key's lifetime has run out, or a purge reads no earlier than the stream's last reading plus the time
   to live, in whole milliseconds.
   */
  lemma SlotIsLostExactly(cfg: Config, s0: Sys, run: seq<Action>, a: Action, i: nat)
    requires Init(s0) && Legal(cfg, s0, run) && Enabled(cfg, Exec(cfg, s0, run), a)
    requires var s := Exec(cfg, s0, run); i < |s.streams| && Wants(s.streams[i]) && i in s.members && !IsRelease(a, i)
    ensures var s := Exec(cfg, s0, run);
            i !in Step(cfg, s, a).members <==>
            (KeyGone(s, a.at) || (a.Purge? && (s.streams[i].reading + cfg.ttl) / MILLISECOND <= a.now / MILLISECOND))
  {
    RunKeepsScored(cfg, s0, run, i);
  }

  /** The member is there, and the key lives at least as long as the stream last prolonged it. */
  ghost predicate HasSlot(cfg: Config, s: Sys, i: nat) {
    i < |s.streams| && Wants(s.streams[i]) ==>
      && i in s.members && Scored(cfg, s, i)
      && (s.streams[i].pc.Admitted? ==> s.streams[i].prolonged.Some?)
      && (s.streams[i].prolonged.Some? && s.expires.Some? ==> s.expires.value >= s.streams[i].prolonged.value + Millis(cfg.ttl))
  }

  ghost predicate KeepInv(cfg: Config, s: Sys) {
    && (forall i :: 0 <= i < |s.streams| ==> HasSlot(cfg, s, i))
    && (s.expires.Some? ==> s.expires.value <= s.time + Millis(cfg.ttl))
    && (forall i :: 0 <= i < |s.streams| ==> PastOnly(s.time, s.streams[i]))
  }

  predicate PastOnly(time: int, x: Stream) {
    x.prolonged.Some? ==> x.prolonged.value <= time
  }

  /**
   A stream's refreshes are in time at an instant: it wrote its score less than the time to live before it, less the
   skew and a millisecond, and prolonged the key less than the time to live before it.
   */
  predicate RefreshInTime(cfg: Config, x: Stream, at: int) {
    && at < x.scored + cfg.ttl - cfg.skew.width - MILLISECOND
    && (x.prolonged.Some? ==> at < x.prolonged.value + Millis(cfg.ttl))
  }

  /** While a stream acquires its slot and has not prolonged the key yet, the lifetime the key had is not over. */
  predicate AcquireInTime(s: Sys, x: Stream, at: int) {
    x.prolonged.None? ==> !KeyGone(s, at)
  }

  predicate InTime(cfg: Config, s: Sys, i: nat, at: int)
    requires i < |s.streams|
  {
    Wants(s.streams[i]) ==> RefreshInTime(cfg, s.streams[i], at) && AcquireInTime(s, s.streams[i], at)
  }

  predicate AllInTime(cfg: Config, s: Sys, at: int) {
    forall i :: 0 <= i < |s.streams| ==> InTime(cfg, s, i, at)
  }

  predicate Refreshed(cfg: Config, s: Sys, run: seq<Action>)
    requires Legal(cfg, s, run)
    decreases |run|
  {
    run == [] || (AllInTime(cfg, s, run[0].at) && Refreshed(cfg, Step(cfg, s, run[0]), run[1..]))
  }

  /** A stream in time finds the key alive. */
  lemma KeyLives(cfg: Config, s: Sys, i: nat, at: int)
    requires KeepInv(cfg, s) && i < |s.streams| && Wants(s.streams[i]) && InTime(cfg, s, i, at)
    ensures !KeyGone(s, at)
  {
    assert HasSlot(cfg, s, i);
  }

  /** No purge of any node reads late enough to remove the member of a stream in time. */
  lemma PurgeKeepsMember(cfg: Config, x: Stream, now: int, at: int)
    requires cfg.skew.Reads(x.scored, x.reading) && cfg.skew.Reads(at, now)
    requires at < x.scored + cfg.ttl - cfg.skew.width - MILLISECOND
    ensures Score(cfg, x.reading) > now / MILLISECOND
  {
    assert now < x.reading + cfg.ttl - MILLISECOND;
  }

  lemma NextExpiry(cfg: Config, s: Sys, a: Action)
    requires a.i < |s.streams|
    ensures var e := NextSlots(cfg, s, a).expires; e == s.expires || e == None || e == Some(s.time + Millis(cfg.ttl))
  {
    hide Kept, Score, Millis;
  }

  /** The member of a stream in time outlasts every action of another. */
  lemma OtherKeepsMember(cfg: Config, s: Sys, a: Action, i: nat)
    requires a.i < |s.streams| && i != a.i && i in s.members
    requires a.Purge? ==> s.members[i] > a.now / MILLISECOND
    ensures var m := NextSlots(cfg, s, a).members; i in m && m[i] == s.members[i]
  {
    hide Score, Millis;
  }

  lemma OtherKeepsSlot(cfg: Config, s: Sys, a: Action, i: nat)
    requires a.i < |s.streams| && i < |s.streams| && i != a.i && HasSlot(cfg, s, i) && PastOnly(s.time, s.streams[i])
    requires a.Purge? && Wants(s.streams[i]) ==> Score(cfg, s.streams[i].reading) > a.now / MILLISECOND
    ensures HasSlot(cfg, Act(cfg, s, a), i)
  {
    hide Score, Millis, NextSlots, NextStream;
    if Wants(s.streams[i]) {
      OtherKeepsMember(cfg, s, a, i);
      NextExpiry(cfg, s, a);
    }
  }

  /** A stream that wants its slot keeps its own member, and has it after adding it. */
  lemma OwnKeepsMember(cfg: Config, s: Sys, a: Action)
    requires a.i < |s.streams| && !a.Purge? && !a.Undo? && !a.EvictRelease? && !a.OwnRelease?
    ensures a.i in s.members || a.Add? ==> a.i in NextSlots(cfg, s, a).members
    ensures (a.Prolong? || a.RefreshKey?) && a.i in s.members ==> NextSlots(cfg, s, a).expires == Some(s.time + Millis(cfg.ttl))
    ensures !(a.Prolong? || a.RefreshKey?) ==> NextSlots(cfg, s, a).expires == s.expires
  {
    hide Kept, Score, Millis;
  }

  lemma OwnKeepsSlot(cfg: Config, s: Sys, a: Action)
    requires a.i < |s.streams| && Starts(s.streams[a.i], a) && HasSlot(cfg, s, a.i) && Scored(cfg, Act(cfg, s, a), a.i) && a.at == s.time
    ensures HasSlot(cfg, Act(cfg, s, a), a.i)
  {
    hide Score, Millis, Scored, NextSlots;
    if Wants(Act(cfg, s, a).streams[a.i]) {
      OwnKeepsMember(cfg, s, a);
    }
  }

  lemma StepKeepsOne(cfg: Config, s: Sys, a: Action, i: nat)
    requires Enabled(cfg, s, a) && KeepInv(cfg, s) && AllInTime(cfg, s, a.at) && i < |s.streams|
    ensures HasSlot(cfg, Step(cfg, s, a), i)
  {
    hide Act, Score, Millis, Starts;
    assert HasSlot(cfg, s, i) && InTime(cfg, s, i, a.at) && PastOnly(s.time, s.streams[i]);
    StepKeepsScored(cfg, s, a, i);
    var m := AtTime(s, a.at);
    if Wants(s.streams[i]) {
      KeyLives(cfg, s, i, a.at);
      if a.Purge? {
        PurgeKeepsMember(cfg, s.streams[i], a.now, a.at);
      }
    }
    assert HasSlot(cfg, m, i);
    if i == a.i {
      OwnKeepsSlot(cfg, m, a);
    } else {
      OtherKeepsSlot(cfg, m, a, i);
    }
  }

  lemma StepKeepsInv(cfg: Config, s: Sys, a: Action)
    requires Enabled(cfg, s, a) && KeepInv(cfg, s) && AllInTime(cfg, s, a.at)
    ensures KeepInv(cfg, Step(cfg, s, a))
  {
    hide HasSlot, Starts, AllInTime, Millis, NextSlots;
    NextExpiry(cfg, AtTime(s, a.at), a);
    var t := Step(cfg, s, a);
    forall i | 0 <= i < |t.streams|
      ensures HasSlot(cfg, t, i) && PastOnly(t.time, t.streams[i])
    {
      assert PastOnly(s.time, s.streams[i]);
      StepKeepsOne(cfg, s, a, i);
    }
  }

  lemma {:induction false} RunKeepsInv(cfg: Config, s: Sys, run: seq<Action>)
    requires Legal(cfg, s, run) && KeepInv(cfg, s) && Refreshed(cfg, s, run)
    ensures KeepInv(cfg, Exec(cfg, s, run))
    decreases |run|
  {
    if run != [] {
      StepKeepsInv(cfg, s, run[0]);
      RunKeepsInv(cfg, Step(cfg, s, run[0]), run[1..]);
    }
  }

  /**
   In every run whose streams are refreshed in time, with the commands of all nodes interleaved and their clocks within
   the skew, every open stream has its member, and the open streams are within the cap.
   */
  lemma OpenStreamsAreCapped(cfg: Config, s: Sys, run: seq<Action>)
    requires Init(s) && Legal(cfg, s, run) && Refreshed(cfg, s, run)
    ensures var t := Exec(cfg, s, run); Open(t) <= t.members.Keys && |Open(t)| <= Max(0, cfg.cap)
  {
    var t := Exec(cfg, s, run);
    assert Holding(s) == {};
    RunKeepsCap(cfg, s, run);
    RunKeepsInv(cfg, s, run);
    forall i | i in Open(t)
      ensures i in t.members
    {
      assert HasSlot(cfg, t, i);
    }
    OpenIsHeldOrLost(cfg, t);
  }

  // ----- eviction and release -----

  predicate IsSwap(a: Action, i: nat) {
    a.TrySwap? && a.i == i
  }

  predicate Happened(run: seq<Action>, i: nat, release: bool) {
    exists k :: 0 <= k < |run| && if release then IsRelease(run[k], i) else IsSwap(run[k], i)
  }

  /** The stream was evicted once if an evictor ever swapped its flag, and released once if it ever was released. */
  ghost predicate OnceInv(x: Stream, swapped: bool, freed: bool) {
    && x.evicted == swapped && x.evictions == (if swapped then 1 else 0)
    && x.once == freed && x.releases == (if freed then 1 else 0)
    && (x.winner ==> x.evicted) && (x.winner || x.evicted || x.once ==> x.pc.Admitted?)
  }

  lemma StepKeepsOnce(cfg: Config, s: Sys, a: Action, i: nat, swapped: bool, freed: bool)
    requires Enabled(cfg, s, a) && i < |s.streams| && OnceInv(s.streams[i], swapped, freed)
    ensures i < |Step(cfg, s, a).streams| && OnceInv(Step(cfg, s, a).streams[i], swapped || IsSwap(a, i), freed || IsRelease(a, i))
  {
    hide NextSlots;
  }

  lemma HappenedSplits(run: seq<Action>, i: nat, release: bool)
    requires run != []
    ensures Happened(run, i, release) <==> (if release then IsRelease(run[0], i) else IsSwap(run[0], i)) || Happened(run[1..], i, release)
  {
    if Happened(run[1..], i, release) {
      var k :| 0 <= k < |run[1..]| && if release then IsRelease(run[1..][k], i) else IsSwap(run[1..][k], i);
      assert run[k + 1] == run[1..][k];
    }
    if Happened(run, i, release) {
      var k :| 0 <= k < |run| && if release then IsRelease(run[k], i) else IsSwap(run[k], i);
      assert k > 0 ==> run[1..][k - 1] == run[k];
    }
  }

  lemma {:induction false} RunKeepsOnce(cfg: Config, s: Sys, run: seq<Action>, i: nat, swapped: bool, freed: bool)
    requires Legal(cfg, s, run) && i < |s.streams| && OnceInv(s.streams[i], swapped, freed)
    ensures i < |Exec(cfg, s, run).streams|
    ensures OnceInv(Exec(cfg, s, run).streams[i], swapped || Happened(run, i, false), freed || Happened(run, i, true))
    decreases |run|
  {
    hide OnceInv, Enabled, Step, Happened;
    if run != [] {
      StepKeepsOnce(cfg, s, run[0], i, swapped, freed);
      RunKeepsOnce(cfg, Step(cfg, s, run[0]), run[1..], i, swapped || IsSwap(run[0], i), freed || IsRelease(run[0], i));
      HappenedSplits(run, i, false);
      HappenedSplits(run, i, true);
    } else {
      NothingHappened(i);
    }
  }

  lemma NothingHappened(i: nat)
    ensures !Happened([], i, false) && !Happened([], i, true)
  {
  }

  /**
   However many evictors pick the same victim: in every run a stream is evicted exactly once if any evictor picked it, and
   its slot is released exactly once in all if an evictor or the stream itself released it, and otherwise not.
   */
  lemma SlotIsReleasedOnce(cfg: Config, s: Sys, run: seq<Action>, i: nat)
    requires Init(s) && Legal(cfg, s, run) && i < |s.streams|
    ensures var t := Exec(cfg, s, run);
            && i < |t.streams|
            && t.streams[i].evictions == (if Happened(run, i, false) then 1 else 0)
            && t.streams[i].releases == (if Happened(run, i, true) then 1 else 0)
  {
    RunKeepsOnce(cfg, s, run, i, false, false);
  }

  /** The stream is released and holds no member. */
  ghost predicate Vacant(s: Sys, i: nat) {
    i < |s.streams| && s.streams[i].pc.Admitted? && s.streams[i].once && i !in s.members
  }

  lemma StepKeepsVacant(cfg: Config, s: Sys, a: Action, i: nat)
    requires Enabled(cfg, s, a) && Vacant(s, i)
    ensures Vacant(Step(cfg, s, a), i)
  {
    hide Score, Millis;
  }

  lemma {:induction false} RunKeepsVacant(cfg: Config, s: Sys, run: seq<Action>, i: nat)
    requires Legal(cfg, s, run) && Vacant(s, i)
    ensures Vacant(Exec(cfg, s, run), i)
    decreases |run|
  {
    hide Vacant, Enabled, Step;
    if run != [] {
      StepKeepsVacant(cfg, s, run[0], i);
      RunKeepsVacant(cfg, Step(cfg, s, run[0]), run[1..], i);
    }
  }

  /** A release frees the slot for good: after the first release of a stream whose removal succeeds, its member is in no later state. */
  lemma ReleasedSlotIsFree(cfg: Config, s0: Sys, run: seq<Action>, a: Action, i: nat, later: seq<Action>)
    requires Init(s0) && Legal(cfg, s0, run) && Enabled(cfg, Exec(cfg, s0, run), a)
    requires i < |s0.streams| && IsRelease(a, i) && a.ok && !Happened(run, i, true) && Legal(cfg, Step(cfg, Exec(cfg, s0, run), a), later)
    ensures i !in Exec(cfg, Step(cfg, Exec(cfg, s0, run), a), later).members
  {
    hide Happened, Legal, Exec;
    RunKeepsOnce(cfg, s0, run, i, false, false);
    ReleaseVacates(cfg, Exec(cfg, s0, run), a, i);
    RunKeepsVacant(cfg, Step(cfg, Exec(cfg, s0, run), a), later, i);
  }

  lemma ReleaseVacates(cfg: Config, s: Sys, a: Action, i: nat)
    requires Enabled(cfg, s, a) && i < |s.streams| && IsRelease(a, i) && a.ok && OnceInv(s.streams[i], s.streams[i].evicted, false)
    ensures Vacant(Step(cfg, s, a), i)
  {
  }

  // ----- losing a slot -----

  ghost predicate Reaches(cfg: Config, s0: Sys, s: Sys) {
    exists run :: Legal(cfg, s0, run) && Exec(cfg, s0, run) == s
  }

  lemma {:induction false} OneMore(cfg: Config, s: Sys, run: seq<Action>, a: Action)
    requires Legal(cfg, s, run) && Enabled(cfg, Exec(cfg, s, run), a)
    ensures Legal(cfg, s, run + [a]) && Exec(cfg, s, run + [a]) == Step(cfg, Exec(cfg, s, run), a)
    decreases |run|
  {
    if run == [] {
      assert run + [a] == [a] && [a][1..] == [];
    } else {
      OneMore(cfg, Step(cfg, s, run[0]), run[1..], a);
      assert (run + [a])[1..] == run[1..] + [a];
    }
  }

  lemma ReachStep(cfg: Config, s0: Sys, s: Sys, a: Action, t: Sys)
    requires Reaches(cfg, s0, s) && Enabled(cfg, s, a) && t == Step(cfg, s, a)
    ensures Reaches(cfg, s0, t)
  {
    var run :| Legal(cfg, s0, run) && Exec(cfg, s0, run) == s;
    OneMore(cfg, s0, run, a);
  }

  /** A run in which every stream is in time at every step. */
  ghost predicate ReachesInTime(cfg: Config, s0: Sys, s: Sys) {
    exists run :: Legal(cfg, s0, run) && Refreshed(cfg, s0, run) && Exec(cfg, s0, run) == s
  }

  lemma {:induction false} OneMoreInTime(cfg: Config, s: Sys, run: seq<Action>, a: Action)
    requires Legal(cfg, s, run) && Refreshed(cfg, s, run) && Legal(cfg, s, run + [a]) && AllInTime(cfg, Exec(cfg, s, run), a.at)
    ensures Refreshed(cfg, s, run + [a])
    decreases |run|
  {
    hide AllInTime, Enabled, Step;
    if run == [] {
      assert run + [a] == [a] && [a][1..] == [];
    } else {
      assert (run + [a])[1..] == run[1..] + [a];
      OneMoreInTime(cfg, Step(cfg, s, run[0]), run[1..], a);
    }
  }

  lemma ReachStepInTime(cfg: Config, s0: Sys, s: Sys, a: Action, t: Sys)
    requires ReachesInTime(cfg, s0, s) && Enabled(cfg, s, a) && AllInTime(cfg, s, a.at) && t == Step(cfg, s, a)
    ensures ReachesInTime(cfg, s0, t)
  {
    hide AllInTime, Enabled, Step;
    var run :| Legal(cfg, s0, run) && Refreshed(cfg, s0, run) && Exec(cfg, s0, run) == s;
    OneMore(cfg, s0, run, a);
    OneMoreInTime(cfg, s0, run, a);
  }

  lemma ReachSelf(cfg: Config, s: Sys)
    ensures ReachesInTime(cfg, s, s)
  {
    assert Legal(cfg, s, []) && Refreshed(cfg, s, []) && Exec(cfg, s, []) == s;
  }

  // ----- getting a slot -----

  /** The members that a purge at the reading leaves to others. */
  function Others(s: Sys, i: nat, now: int, at: int): map<nat, int> {
    Kept(AtTime(s, at).members, now) - {i}
  }

  lemma ReachThen(cfg: Config, s0: Sys, s: Sys, a: Action)
    requires Reaches(cfg, s0, s) && Enabled(cfg, s, a)
    ensures Reaches(cfg, s0, Step(cfg, s, a))
  {
    ReachStep(cfg, s0, s, a, Step(cfg, s, a));
  }

  lemma ReachFrom(cfg: Config, s: Sys)
    ensures Reaches(cfg, s, s)
  {
    assert Legal(cfg, s, []) && Exec(cfg, s, []) == s;
  }

  /** The stream stands at pc at instant `at`, with the given members beside its own, under a key that has not expired. */
  ghost predicate Stands(s: Sys, i: nat, pc: Pc, others: map<nat, int>, at: int) {
    && i < |s.streams| && s.streams[i].pc == pc && s.time == at && !KeyGone(s, at)
    && i in s.members && s.members - {i} == others
  }

  lemma SlotIsAdded(cfg: Config, s: Sys, i: nat, now: int, at: int)
    requires i < |s.streams| && s.streams[i].pc.Start? && s.time <= at && cfg.skew.Reads(at, now)
    ensures exists u :: Reaches(cfg, s, u) && Stands(u, i, Added, Others(s, i, now, at), at)
  {
    hide Reaches, Score;
    ReachFrom(cfg, s);
    ReachThen(cfg, s, s, Purge(i, now, at));
    var s1 := Step(cfg, s, Purge(i, now, at));
    ReachThen(cfg, s, s1, Add(i, at));
    var s2 := Step(cfg, s1, Add(i, at));
    assert s1.members == Kept(AtTime(s, at).members, now);
    assert s2.members - {i} == Others(s, i, now, at);
    assert Stands(s2, i, Added, Others(s, i, now, at), at);
  }

  lemma CountIsOthersAndOwn(m: map<nat, int>, i: nat)
    requires i in m
    ensures |m| == |m - {i}| + 1
  {
    assert m.Keys == (m - {i}).Keys + {i};
    assert |m.Keys| == |m| && |(m - {i}).Keys| == |m - {i}|;
  }

  lemma SlotIsDecided(cfg: Config, s: Sys, i: nat, others: map<nat, int>, at: int)
    requires cfg.ttl > 0 && Stands(s, i, Added, others, at)
    ensures exists u :: Reaches(cfg, s, u) && Stands(u, i, if |others| + 1 <= cfg.cap then Admitted else Undoing, others, at)
  {
    hide Reaches;
    ReachFrom(cfg, s);
    CountIsOthersAndOwn(s.members, i);
    ReachThen(cfg, s, s, Count(i, at));
    var s1 := Step(cfg, s, Count(i, at));
    ReachThen(cfg, s, s1, Prolong(i, at));
    var s2 := Step(cfg, s1, Prolong(i, at));
    assert Stands(s2, i, if |others| + 1 <= cfg.cap then Admitted else Undoing, others, at);
  }

  lemma {:induction false} RunsJoin(cfg: Config, s: Sys, run: seq<Action>, later: seq<Action>)
    requires Legal(cfg, s, run) && Legal(cfg, Exec(cfg, s, run), later)
    ensures Legal(cfg, s, run + later) && Exec(cfg, s, run + later) == Exec(cfg, Exec(cfg, s, run), later)
    decreases |run|
  {
    hide Enabled, Step;
    if run == [] {
      assert run + later == later;
    } else {
      RunsJoin(cfg, Step(cfg, s, run[0]), run[1..], later);
      assert (run + later)[1..] == run[1..] + later;
    }
  }

  lemma ReachesJoin(cfg: Config, s: Sys, t: Sys, u: Sys)
    requires Reaches(cfg, s, t) && Reaches(cfg, t, u)
    ensures Reaches(cfg, s, u)
  {
    hide Enabled, Step;
    var run :| Legal(cfg, s, run) && Exec(cfg, s, run) == t;
    var later :| Legal(cfg, t, later) && Exec(cfg, t, later) == u;
    RunsJoin(cfg, s, run, later);
  }

  /**
   An acquisition that is not interrupted, from any state: the stream is admitted with its slot if and only if the members
   not expired at its reading leave room for one more; if not, it is refused, and undoing leaves the set to the others.
   */
  lemma AcquisitionIsDecided(cfg: Config, s: Sys, i: nat, now: int, at: int)
    requires cfg.ttl > 0 && i < |s.streams| && s.streams[i].pc.Start? && s.time <= at && cfg.skew.Reads(at, now)
    ensures var others := Others(s, i, now, at);
            if |others| + 1 <= cfg.cap then exists u :: Reaches(cfg, s, u) && Stands(u, i, Admitted, others, at)
            else exists u :: Reaches(cfg, s, u) && i < |u.streams| && u.streams[i].pc.Refused? && u.members == others
  {
    hide Reaches, Stands, Others;
    var others := Others(s, i, now, at);
    SlotIsAdded(cfg, s, i, now, at);
    var m :| Reaches(cfg, s, m) && Stands(m, i, Added, others, at);
    SlotIsDecided(cfg, m, i, others, at);
    var u :| Reaches(cfg, m, u) && Stands(u, i, if |others| + 1 <= cfg.cap then Admitted else Undoing, others, at);
    ReachesJoin(cfg, s, m, u);
    if |others| + 1 > cfg.cap {
      UndoLeavesOthers(cfg, s, u, i, others, at);
    }
  }

  lemma UndoLeavesOthers(cfg: Config, s0: Sys, s: Sys, i: nat, others: map<nat, int>, at: int)
    requires Reaches(cfg, s0, s) && Stands(s, i, Undoing, others, at)
    ensures exists u :: Reaches(cfg, s0, u) && i < |u.streams| && u.streams[i].pc.Refused? && u.members == others
  {
    hide Reaches;
    ReachThen(cfg, s0, s, Undo(i, true, at));
    assert Step(cfg, s, Undo(i, true, at)).members == others;
  }

  // ----- runs that lose a slot -----

  const TTL: int := 3 * SECOND
  const AGREED := Skew(0, 0)
  const TWO_STREAMS := Sys(0, map[], None, [FRESH, FRESH])

  /** One stream was admitted at the start, and has been silent since. */
  const SILENT := FRESH.(pc := Admitted, prolonged := Some(0))
  const ONE_ADMITTED := Sys(0, map[0 := 3000], Some(TTL), [SILENT, FRESH])

  lemma AdmitFirst(cap: int)
    requires cap >= 1
    ensures ReachesInTime(Config(cap, TTL, AGREED), TWO_STREAMS, ONE_ADMITTED)
  {
    hide ReachesInTime;
    var cfg, s0 := Config(cap, TTL, AGREED), TWO_STREAMS;
    ReachSelf(cfg, s0);
    assert Kept(map[], 0) == map[];
    var s1 := s0.(streams := [FRESH.(pc := Purged), FRESH]);
    ReachStepInTime(cfg, s0, s0, Purge(0, 0, 0), s1);
    var s2 := s0.(members := map[0 := 3000], streams := [FRESH.(pc := Added), FRESH]);
    ReachStepInTime(cfg, s0, s1, Add(0, 0), s2);
    assert |map[0 := 3000]| == 1;
    var s3 := s2.(streams := [FRESH.(pc := Counted(true)), FRESH]);
    ReachStepInTime(cfg, s0, s2, Count(0, 0), s3);
    ReachStepInTime(cfg, s0, s3, Prolong(0, 0), ONE_ADMITTED);
  }

  lemma FirstIsReached(cap: int)
    requires cap >= 1
    ensures Reaches(Config(cap, TTL, AGREED), TWO_STREAMS, ONE_ADMITTED)
  {
    AdmitFirst(cap);
  }

  const NEXT := FRESH.(reading := TTL, scored := TTL)
  const BOTH_ADMITTED := Sys(TTL, map[1 := 6000], Some(2 * TTL), [SILENT, NEXT.(pc := Admitted, prolonged := Some(TTL))])

  /** A stream silent for the time to live loses its slot, and another takes it beyond the cap of one. */
  lemma SilentStreamLosesItsSlot()
    ensures Init(TWO_STREAMS) && Reaches(Config(1, TTL, AGREED), TWO_STREAMS, BOTH_ADMITTED) && Open(BOTH_ADMITTED) == {0, 1}
  {
    hide Reaches;
    var cfg, s0 := Config(1, TTL, AGREED), TWO_STREAMS;
    FirstIsReached(1);
    assert Kept(map[], TTL) == map[];
    var s1 := Sys(TTL, map[], None, [SILENT, FRESH.(pc := Purged, reading := TTL)]);
    ReachStep(cfg, s0, ONE_ADMITTED, Purge(1, TTL, TTL), s1);
    var s2 := Sys(TTL, map[1 := 6000], None, [SILENT, NEXT.(pc := Added)]);
    ReachStep(cfg, s0, s1, Add(1, TTL), s2);
    assert |map[1 := 6000]| == 1;
    var s3 := s2.(streams := [SILENT, NEXT.(pc := Counted(true))]);
    ReachStep(cfg, s0, s2, Count(1, TTL), s3);
    ReachStep(cfg, s0, s3, Prolong(1, TTL), BOTH_ADMITTED);
  }

  const EARLY := TTL - MILLISECOND

  /** The first stream has ended; removing its member failed. */
  const ENDED := SILENT.(once := true, releases := 1)
  const YOUNG := FRESH.(reading := EARLY, scored := EARLY)

  /** A second stream has been counted in a millisecond before the key's lifetime runs out, and has not prolonged it. */
  const COUNTED_IN := Sys(EARLY, map[0 := 3000, 1 := 5999], Some(TTL), [ENDED, YOUNG.(pc := Counted(true))])
  const SLOTLESS := Sys(TTL, map[], None, [ENDED, YOUNG.(pc := Admitted, prolonged := Some(TTL))])

  const PURGED_LATE := Sys(EARLY, map[0 := 3000], Some(TTL), [ENDED, FRESH.(pc := Purged, reading := EARLY)])

  lemma PurgeSecond()
    ensures ReachesInTime(Config(2, TTL, AGREED), TWO_STREAMS, PURGED_LATE)
  {
    hide ReachesInTime;
    var cfg, s0 := Config(2, TTL, AGREED), TWO_STREAMS;
    AdmitFirst(2);
    var one: map<nat, int> := map[0 := 3000];
    assert 0 in one && Kept(one, EARLY) == one;
    var s1 := Sys(0, one, Some(TTL), [ENDED, FRESH]);
    ReachStepInTime(cfg, s0, ONE_ADMITTED, OwnRelease(0, false, 0), s1);
    ReachStepInTime(cfg, s0, s1, Purge(1, EARLY, EARLY), PURGED_LATE);
  }

  lemma CountSecond()
    ensures ReachesInTime(Config(2, TTL, AGREED), TWO_STREAMS, COUNTED_IN)
  {
    hide ReachesInTime;
    var cfg, s0 := Config(2, TTL, AGREED), TWO_STREAMS;
    PurgeSecond();
    var s3 := COUNTED_IN.(streams := [ENDED, YOUNG.(pc := Added)]);
    ReachStepInTime(cfg, s0, PURGED_LATE, Add(1, EARLY), s3);
    assert |map[0 := 3000, 1 := 5999]| == 2;
    ReachStepInTime(cfg, s0, s3, Count(1, EARLY), COUNTED_IN);
  }

  /**
   The condition on acquisitions is needed too. In a run whose streams are all in time at every step but the last, and
   whose refreshes are in time at the last as well, the lifetime the key had runs out before a new stream prolongs it, and
   the stream is admitted without a slot.
   */
  lemma AcquisitionLosesItsSlot()
    ensures var cfg, last := Config(2, TTL, AGREED), Prolong(1, TTL);
            && Init(TWO_STREAMS) && ReachesInTime(cfg, TWO_STREAMS, COUNTED_IN)
            && (forall i :: 0 <= i < |COUNTED_IN.streams| && Wants(COUNTED_IN.streams[i]) ==> RefreshInTime(cfg, COUNTED_IN.streams[i], last.at))
            && Enabled(cfg, COUNTED_IN, last) && Step(cfg, COUNTED_IN, last) == SLOTLESS
            && 1 in Open(SLOTLESS) && 1 !in SLOTLESS.members
  {
    hide ReachesInTime;
    CountSecond();
  }

  // ----- the victim -----

  /** A tracked stream of this node, as the evictor reads it. */
  datatype Tracked = Tracked(tunnel: string, evicted: bool, lastAct: int, recent: int)

  predicate Evictable(x: Tracked, tunnel: string, now: int, evictIdle: int, protectRate: int) {
    x.tunnel == tunnel && !x.evicted && (now - x.lastAct >= evictIdle || x.recent < protectRate)
  }

  /** A protected stream was active within the idle time and is fast enough. */
  predicate Protected(x: Tracked, now: int, evictIdle: int, protectRate: int) {
    now - x.lastAct < evictIdle && x.recent >= protectRate
  }

  /** Every stream of the tunnel that is not evicted already can be evicted, except a protected one. */
  lemma EvictableUnlessProtected(x: Tracked, tunnel: string, now: int, evictIdle: int, protectRate: int)
    ensures Evictable(x, tunnel, now, evictIdle, protectRate) <==> x.tunnel == tunnel && !x.evicted && !Protected(x, now, evictIdle, protectRate)
  {
  }

  /**
   leastActive: an evictable stream that has been idle longest. There is none exactly when every evictable
   stream was active after the clock was read.
   */
  method LeastActive(streams: seq<Tracked>, tunnel: string, now: int, evictIdle: int, protectRate: int) returns (victim: Option<nat>, idle: int)
    ensures victim.None? <==> forall i :: 0 <= i < |streams| && Evictable(streams[i], tunnel, now, evictIdle, protectRate) ==> now - streams[i].lastAct < 0
    ensures victim.Some? ==>
              && victim.value < |streams| && Evictable(streams[victim.value], tunnel, now, evictIdle, protectRate)
              && idle == now - streams[victim.value].lastAct
              && forall i :: 0 <= i < |streams| && Evictable(streams[i], tunnel, now, evictIdle, protectRate) ==> now - streams[i].lastAct <= idle
  {
    victim, idle := None, -1;
    var k := 0;
    while k < |streams|
      invariant 0 <= k <= |streams| && idle >= -1
      invariant victim.None? <==> idle == -1
      invariant victim.Some? ==> victim.value < k && Evictable(streams[victim.value], tunnel, now, evictIdle, protectRate) && idle == now - streams[victim.value].lastAct
      invariant forall i :: 0 <= i < k && Evictable(streams[i], tunnel, now, evictIdle, protectRate) ==> now - streams[i].lastAct <= idle
    {
      var x := streams[k];
      if x.tunnel == tunnel && !x.evicted {
        var spent := now - x.lastAct;
        if (spent >= evictIdle || x.recent < protectRate) && spent > idle {
          victim, idle := Some(k), spent;
        }
      }
      k := k + 1;
    }
  }
}
