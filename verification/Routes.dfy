/**
 The route of one tunnel name (internal/router) and the phone connections that bind, refresh, restore
 and remove it (internal/phoneconn/manager.go), command by command. Connections live on any nodes; each
 runs two goroutines, its handler and its heartbeat loop. Binding, restoring and removing run under the
 per-name lock; heartbeats and traffic counters do not.

 Assumptions: connection ids are distinct, node ids are not empty, and the commands of a lock section,
 its release included, run before the section's lock expires.
 */
module Routes {
  import opened Basics

  const LOCK_TTL: int := 5 * SECOND
  const ORPHAN_TTL: int := 30 * SECOND

  /** The hash under the route's key. `writer` remembers which connection wrote the routing fields. */
  datatype Hash = Hash(node: Option<string>, connID: Option<string>, bytesIn: int, bytesOut: int, expires: Option<int>, writer: nat)

  datatype Op = Bind | Heal | Unbind

  datatype Decision = WriteRoute(reset: bool) | Delete | Nothing

  datatype Result = Done | Collided | Failed

  /** A goroutine's place in a lock section. */
  datatype Pc =
    | Rest
    | In(op: Op, token: nat, until: int)
    | Saw(op: Op, token: nat, until: int, dec: Decision)
    | Half(op: Op, token: nat, until: int)                 // the fields are written, the expiry is not
    | Out(op: Op, token: nat, until: int, res: Result)     // the section is over, the lock not released
    | Mine(op: Op, token: nat, until: int, res: Result)    // the lock was read and is still ours

  datatype Life = Dialing | Up | Closing | Leaving | Gone(clean: bool)

  datatype Beat = NotStarted | Ticking | Refreshing | Healing | Exited

  datatype Conn = Conn(id: string, node: string, life: Life, main: Pc, beat: Beat, hb: Pc)

  datatype Lock = Lock(token: nat, until: int)

  datatype Sys = Sys(time: int, key: Option<Hash>, lock: Option<Lock>, minted: nat, conns: seq<Conn>)

  /** `hb` says whether the heartbeat goroutine acts, or the handler. */
  datatype Action =
    | Acquire(i: nat, hb: bool, op: Op, at: int)
    | ReadRoute(i: nat, hb: bool, at: int)
    | SetFields(i: nat, hb: bool, at: int)
    | SetExpiry(i: nat, hb: bool, at: int)
    | DeleteRoute(i: nat, hb: bool, at: int)
    | Decline(i: nat, hb: bool, at: int)
    | Fail(i: nat, hb: bool, at: int)
    | GetLock(i: nat, hb: bool, id: string, at: int)
    | DelLock(i: nat, hb: bool, id: string, at: int)
    | GiveUp(i: nat, hb: bool, at: int)      // the lock stayed contended, or could not be reached
    | StartBeat(i: nat, at: int)
    | BeatGet(i: nat, draining: bool, at: int)
    | BeatExpire(i: nat, at: int)
    | BeatExit(i: nat, at: int)
    | Close(i: nat, at: int)
    | TearDown(i: nat, at: int)
    | Traffic(bytesIn: int, bytesOut: int, at: int)
    | CapOrphan(at: int)

  // ----- the store -----

  predicate Live(key: Option<Hash>, at: int) {
    key.Some? && (key.value.expires.None? || at < key.value.expires.value)
  }

  /** The fields a write starts from: a key that is gone starts empty and without an expiry. */
  function Base(key: Option<Hash>, at: int): Hash {
    if Live(key, at) then key.value else Hash(None, None, 0, 0, None, 0)
  }

  function Owner(key: Option<Hash>, at: int): Option<string> {
    Base(key, at).connID
  }

  /** LookupRoute: a name routes only through a stored node. */
  function LookupRoute(key: Option<Hash>, at: int): Option<(string, string)> {
    var h := Base(key, at);
    if h.node.None? || h.node.value == "" then None
    else Some((h.node.value, if h.connID.Some? then h.connID.value else ""))
  }

  // ----- the machine -----

  function PcOf(c: Conn, hb: bool): Pc {
    if hb then c.hb else c.main
  }

  function WithPc(c: Conn, hb: bool, pc: Pc): Conn {
    if hb then c.(hb := pc) else c.(main := pc)
  }

  function Decide(op: Op, id: string, h: Hash): Decision {
    match op
    case Bind => if h.connID == Some(id) then Nothing else WriteRoute(true)
    case Heal => if h.node.None? || h.node.value == "" then WriteRoute(true)
                 else if h.connID != Some(id) then Nothing else WriteRoute(false)
    case Unbind => if h.connID == Some(id) then Delete else Nothing
  }

  /** The section has returned to its caller; a collision makes the caller take a fresh id and try again. */
  function Returned(c: Conn, hb: bool, res: Result, id: string): Conn {
    if hb then c.(hb := Rest, beat := Ticking)
    else if c.life.Dialing? then
      (match res
       case Done => c.(main := Rest, life := Up)
       case Collided => c.(main := Rest, id := id)
       case Failed => c.(main := Rest, life := Gone(false)))
    else c.(main := Rest, life := Gone(res.Done?))
  }

  predicate HasSection(pc: Pc) {
    !pc.Rest?
  }

  predicate ByConn(a: Action) {
    !a.Traffic? && !a.CapOrphan?
  }

  predicate MayEnter(c: Conn, hb: bool, op: Op) {
    PcOf(c, hb).Rest? &&
    if hb then op.Heal? && c.beat.Healing? else (op.Bind? && c.life.Dialing?) || (op.Unbind? && c.life.Leaving?)
  }

  /** The id a goroutine would take after a collision was never used. */
  predicate FreshId(s: Sys, id: string) {
    (forall j :: 0 <= j < |s.conns| ==> s.conns[j].id != id) && (s.key.Some? ==> s.key.value.connID != Some(id))
  }

  predicate Enabled(s: Sys, a: Action) {
    && a.at >= s.time
    && (ByConn(a) ==> a.i < |s.conns|)
    && match a
       case Acquire(i, hb, op, at) => MayEnter(s.conns[i], hb, op)
       case ReadRoute(i, hb, at) => PcOf(s.conns[i], hb).In? && at < PcOf(s.conns[i], hb).until
       case SetFields(i, hb, at) => PcOf(s.conns[i], hb).Saw? && PcOf(s.conns[i], hb).dec.WriteRoute? && at < PcOf(s.conns[i], hb).until
       case SetExpiry(i, hb, at) => PcOf(s.conns[i], hb).Half? && at < PcOf(s.conns[i], hb).until
       case DeleteRoute(i, hb, at) => PcOf(s.conns[i], hb).Saw? && PcOf(s.conns[i], hb).dec.Delete? && at < PcOf(s.conns[i], hb).until
       case Decline(i, hb, at) => PcOf(s.conns[i], hb).Saw? && PcOf(s.conns[i], hb).dec.Nothing?
       case Fail(i, hb, at) => PcOf(s.conns[i], hb).In? || PcOf(s.conns[i], hb).Saw? || PcOf(s.conns[i], hb).Half?
       case GetLock(i, hb, id, at) => PcOf(s.conns[i], hb).Out? && FreshId(s, id)
       case DelLock(i, hb, id, at) => PcOf(s.conns[i], hb).Mine? && at < PcOf(s.conns[i], hb).until && FreshId(s, id)
       case GiveUp(i, hb, at) => MayEnter(s.conns[i], hb, Bind) || MayEnter(s.conns[i], hb, Heal) || MayEnter(s.conns[i], hb, Unbind)
       case StartBeat(i, at) => s.conns[i].life.Up? && s.conns[i].beat.NotStarted?
       case BeatGet(i, draining, at) => s.conns[i].beat.Ticking?
       case BeatExpire(i, at) => s.conns[i].beat.Refreshing?
       case BeatExit(i, at) => s.conns[i].hb.Rest? && !s.conns[i].beat.NotStarted?
       case Close(i, at) => s.conns[i].life.Up?
       case TearDown(i, at) => (s.conns[i].life.Closing? && s.conns[i].beat.Exited?) || (s.conns[i].life.Up? && s.conns[i].beat.NotStarted?)
       case Traffic(_, _, _) => true
       case CapOrphan(_) => true
  }

  function StepKey(ttl: int, s: Sys, a: Action): Option<Hash>
    requires Enabled(s, a)
  {
    match a
    case SetFields(i, hb, at) =>
      var c := s.conns[i];
      var h := Base(s.key, at).(node := Some(c.node), connID := Some(c.id), writer := i);
      Some(if PcOf(c, hb).dec.reset then h.(bytesIn := 0, bytesOut := 0) else h)
    case SetExpiry(i, hb, at) => if Live(s.key, at) then Some(s.key.value.(expires := Some(at + ttl))) else s.key
    case DeleteRoute(i, hb, at) => None
    case BeatExpire(i, at) => if Live(s.key, at) then Some(s.key.value.(expires := Some(at + ttl))) else s.key
    case Traffic(bytesIn, bytesOut, at) =>
      var h := Base(s.key, at);
      if bytesIn == 0 && bytesOut == 0 then s.key else Some(h.(bytesIn := h.bytesIn + bytesIn, bytesOut := h.bytesOut + bytesOut))
    case CapOrphan(at) =>
      if Live(s.key, at) && s.key.value.expires.None? then Some(s.key.value.(expires := Some(at + ORPHAN_TTL))) else s.key
    case _ => s.key
  }

  function StepConn(s: Sys, a: Action): Conn
    requires Enabled(s, a) && ByConn(a)
  {
    var c := s.conns[a.i];
    match a
    case Acquire(_, hb, op, at) => if s.lock.Some? && at < s.lock.value.until then c else WithPc(c, hb, In(op, s.minted, at + LOCK_TTL))
    case ReadRoute(_, hb, at) =>
      var pc := PcOf(c, hb);
      WithPc(c, hb, Saw(pc.op, pc.token, pc.until, Decide(pc.op, c.id, Base(s.key, at))))
    case SetFields(_, hb, _) => var pc := PcOf(c, hb); WithPc(c, hb, Half(pc.op, pc.token, pc.until))
    case SetExpiry(_, hb, _) => var pc := PcOf(c, hb); WithPc(c, hb, Out(pc.op, pc.token, pc.until, Done))
    case DeleteRoute(_, hb, _) => var pc := PcOf(c, hb); WithPc(c, hb, Out(pc.op, pc.token, pc.until, Done))
    case Decline(_, hb, _) => var pc := PcOf(c, hb); WithPc(c, hb, Out(pc.op, pc.token, pc.until, if pc.op.Bind? then Collided else Done))
    case Fail(_, hb, _) => var pc := PcOf(c, hb); WithPc(c, hb, Out(pc.op, pc.token, pc.until, Failed))
    case GetLock(_, hb, id, at) =>
      var pc := PcOf(c, hb);
      if s.lock.Some? && at < s.lock.value.until && s.lock.value.token == pc.token
      then WithPc(c, hb, Mine(pc.op, pc.token, pc.until, pc.res)) else Returned(c, hb, pc.res, id)
    case DelLock(_, hb, id, _) => Returned(c, hb, PcOf(c, hb).res, id)
    case GiveUp(_, hb, _) => Returned(c, hb, Failed, c.id)
    case StartBeat(_, _) => c.(beat := Ticking)
    case BeatGet(_, draining, at) =>
      var owner := Owner(s.key, at);
      if owner.None? then c.(beat := Healing)
      else if owner == Some(c.id) then c.(beat := Refreshing)
      else if draining then c.(beat := Exited)
      else c.(beat := Exited, life := if c.life.Up? then Closing else c.life)
    case BeatExpire(_, at) => c.(beat := if Live(s.key, at) then Ticking else Healing)
    case BeatExit(_, _) => c.(beat := Exited)
    case Close(_, _) => c.(life := Closing)
    case TearDown(_, _) => c.(life := Leaving)
  }

  function Step(ttl: int, s: Sys, a: Action): Sys
    requires Enabled(s, a)
  {
    var conns := if ByConn(a) then s.conns[a.i := StepConn(s, a)] else s.conns;
    var takes := a.Acquire? && !(s.lock.Some? && a.at < s.lock.value.until);
    Sys(a.at, StepKey(ttl, s, a),
        if takes then Some(Lock(s.minted, a.at + LOCK_TTL)) else if a.DelLock? then None else s.lock,
        if takes then s.minted + 1 else s.minted, conns)
  }

  ghost predicate Init(s: Sys) {
    && s.key.None? && s.lock.None?
    && (forall i :: 0 <= i < |s.conns| ==> s.conns[i] == Conn(s.conns[i].id, s.conns[i].node, Dialing, Rest, NotStarted, Rest) && s.conns[i].node != "")
    && (forall i, j :: 0 <= i < j < |s.conns| ==> s.conns[i].id != s.conns[j].id)
  }

  predicate Legal(ttl: int, s: Sys, run: seq<Action>)
    decreases |run|
  {
    run == [] || (Enabled(s, run[0]) && Legal(ttl, Step(ttl, s, run[0]), run[1..]))
  }

  function Exec(ttl: int, s: Sys, run: seq<Action>): Sys
    requires Legal(ttl, s, run)
    decreases |run|
  {
    if run == [] then s else Exec(ttl, Step(ttl, s, run[0]), run[1..])
  }

  // ----- the lock -----

  ghost predicate Holds(s: Sys, pc: Pc) {
    HasSection(pc) ==> pc.token < s.minted && (s.time < pc.until ==> s.lock == Some(Lock(pc.token, pc.until)))
  }

  ghost predicate LockInv(s: Sys) {
    && (s.lock.Some? ==> s.lock.value.token < s.minted)
    && (forall i, h :: 0 <= i < |s.conns| ==> Holds(s, PcOf(s.conns[i], h)))
    && (forall i, h, j, g :: 0 <= i < |s.conns| && 0 <= j < |s.conns| && (i != j || h != g) ==> Differ(PcOf(s.conns[i], h), PcOf(s.conns[j], g)))
  }

  predicate Differ(p: Pc, q: Pc) {
    HasSection(p) && HasSection(q) ==> p.token != q.token
  }

  lemma MutualExclusion(s: Sys, i: nat, h: bool, j: nat, g: bool)
    requires LockInv(s) && i < |s.conns| && j < |s.conns|
    requires var p, q := PcOf(s.conns[i], h), PcOf(s.conns[j], g);
             HasSection(p) && HasSection(q) && s.time < p.until && s.time < q.until
    ensures i == j && h == g
  {
    assert Holds(s, PcOf(s.conns[i], h)) && Holds(s, PcOf(s.conns[j], g));
    assert (i != j || h != g) ==> Differ(PcOf(s.conns[i], h), PcOf(s.conns[j], g));
  }

  lemma StepKeepsHolds(ttl: int, s: Sys, a: Action, j: nat, g: bool)
    requires LockInv(s) && Enabled(s, a) && j < |s.conns|
    ensures Holds(Step(ttl, s, a), PcOf(Step(ttl, s, a).conns[j], g))
  {
    hide StepKey, FreshId, Decide, Owner, Differ;
    var s' := Step(ttl, s, a);
    assert Holds(s, PcOf(s.conns[j], g));
    if a.DelLock? && HasSection(PcOf(s'.conns[j], g)) && a.at < PcOf(s'.conns[j], g).until {
      MutualExclusion(s, a.i, a.hb, j, g);
    }
  }

  lemma StepKeepsTokens(ttl: int, s: Sys, a: Action, i: nat, h: bool, j: nat, g: bool)
    requires Enabled(s, a) && i < |s.conns| && j < |s.conns| && (i != j || h != g)
    requires Holds(s, PcOf(s.conns[i], h)) && Holds(s, PcOf(s.conns[j], g)) && Differ(PcOf(s.conns[i], h), PcOf(s.conns[j], g))
    ensures var s' := Step(ttl, s, a); Differ(PcOf(s'.conns[i], h), PcOf(s'.conns[j], g))
  {
    hide StepKey, FreshId, Decide, Owner;
  }

  lemma StepKeepsLockInv(ttl: int, s: Sys, a: Action)
    requires LockInv(s) && Enabled(s, a)
    ensures LockInv(Step(ttl, s, a))
  {
    hide StepKey, StepConn, Holds, Differ, FreshId;
    var s' := Step(ttl, s, a);
    forall j, g | 0 <= j < |s'.conns|
      ensures Holds(s', PcOf(s'.conns[j], g))
    {
      StepKeepsHolds(ttl, s, a, j, g);
    }
    forall i, h, j, g | 0 <= i < |s'.conns| && 0 <= j < |s'.conns| && (i != j || h != g)
      ensures Differ(PcOf(s'.conns[i], h), PcOf(s'.conns[j], g))
    {
      assert Holds(s, PcOf(s.conns[i], h)) && Holds(s, PcOf(s.conns[j], g)) && Differ(PcOf(s.conns[i], h), PcOf(s.conns[j], g));
      StepKeepsTokens(ttl, s, a, i, h, j, g);
    }
  }

  // ----- the life of a connection -----

  /** The two goroutines of a connection enter only the sections their state allows, and teardown waits for the heartbeat. */
  ghost predicate Phased(c: Conn) {
    && (HasSection(c.main) ==> (c.main.op.Bind? && c.life.Dialing?) || (c.main.op.Unbind? && c.life.Leaving?))
    && (HasSection(c.hb) ==> c.hb.op.Heal? && c.beat.Healing?)
    && (c.life.Dialing? ==> c.beat.NotStarted?)
    && (c.life.Leaving? || c.life.Gone? ==> c.beat.NotStarted? || c.beat.Exited?)
    && ((c.main.Out? || c.main.Mine?) && c.main.res.Collided? ==> c.main.op.Bind?)
    && (c.main.Half? ==> c.main.op.Bind?)
    && (c.main.Saw? && c.main.op.Unbind? ==> !c.main.dec.WriteRoute?)
    && (c.main.Saw? && c.main.op.Bind? ==> !c.main.dec.Delete?)
    && (c.hb.Saw? ==> !c.hb.dec.Delete?)
    && c.node != ""
  }

  lemma StepKeepsPhased(ttl: int, s: Sys, a: Action, j: nat)
    requires Enabled(s, a) && j < |s.conns| && Phased(s.conns[j])
    ensures Phased(Step(ttl, s, a).conns[j])
  {
    hide StepKey, FreshId;
  }

  // ----- the route -----

  /** The routing fields are there together or not at all, and are those of the connection that wrote them. */
  ghost predicate Written(key: Option<Hash>, conns: seq<Conn>) {
    key.Some? ==>
      && (key.value.node.Some? <==> key.value.connID.Some?)
      && (key.value.connID.Some? ==>
            && key.value.writer < |conns|
            && key.value.connID == Some(conns[key.value.writer].id) && key.value.node == Some(conns[key.value.writer].node))
  }

  /** A connection that has not bound yet has not written the route. */
  ghost predicate Unwritten(key: Option<Hash>, c: Conn, i: nat) {
    c.life.Dialing? && !c.main.Half? && !((c.main.Out? || c.main.Mine?) && !c.main.res.Collided?) ==>
      key.Some? && key.value.connID.Some? ==> key.value.writer != i
  }

  /** A section that decided to restore or remove the route acts on no other connection's route. */
  ghost predicate Decided(key: Option<Hash>, time: int, c: Conn, pc: Pc) {
    pc.Saw? && !pc.op.Bind? && !pc.dec.Nothing? && time < pc.until ==> Owner(key, time) == None || Owner(key, time) == Some(c.id)
  }

  /** From the moment its removal has looked and found nothing of its own, the route never names the connection. */
  ghost predicate Removed(key: Option<Hash>, time: int, c: Conn) {
    c.life == Gone(true) || (c.life.Leaving? && ((c.main.Saw? && c.main.dec.Nothing?) || ((c.main.Out? || c.main.Mine?) && c.main.res.Done?))) ==>
      Owner(key, time) != Some(c.id)
  }

  ghost predicate ConnInv(s: Sys, i: nat)
    requires i < |s.conns|
  {
    var c := s.conns[i];
    && Phased(c) && Unwritten(s.key, c, i) && Removed(s.key, s.time, c)
    && Decided(s.key, s.time, c, c.main) && Decided(s.key, s.time, c, c.hb)
  }

  ghost predicate Inv(s: Sys) {
    && LockInv(s) && Written(s.key, s.conns)
    && (forall i :: 0 <= i < |s.conns| ==> ConnInv(s, i))
    && (forall i, j :: 0 <= i < j < |s.conns| ==> s.conns[i].id != s.conns[j].id)
  }

  /** Passing time can only take the owner away. */
  lemma OwnerFades(key: Option<Hash>, t: int, u: int)
    requires t <= u
    ensures Owner(key, u) == None || Owner(key, u) == Owner(key, t)
  {
  }

  /**
   What one step can do to the owner: it stays, it expires, the owner's own removal deletes it, a bind of
   another connection replaces it, or a connection's own write restores a route that was not there.
   */
  lemma OwnerSteps(ttl: int, s: Sys, a: Action)
    requires ttl > 0 && Inv(s) && Enabled(s, a)
    ensures var was, now := Owner(s.key, s.time), Owner(Step(ttl, s, a).key, a.at);
            || now == was
            || (now == None && !Live(s.key, a.at))
            || (now == None && a.DeleteRoute? && was == Some(s.conns[a.i].id))
            || (a.SetFields? && now == Some(s.conns[a.i].id) && (PcOf(s.conns[a.i], a.hb).op.Bind? || was == None || was == now || !Live(s.key, a.at)))
  {
    OwnerFades(s.key, s.time, a.at);
    if a.DeleteRoute? || a.SetFields? {
      assert ConnInv(s, a.i);
    }
  }

  lemma StepKeepsWritten(ttl: int, s: Sys, a: Action)
    requires Inv(s) && Enabled(s, a)
    ensures Written(Step(ttl, s, a).key, Step(ttl, s, a).conns)
  {
    if ByConn(a) {
      assert ConnInv(s, a.i);
    }
  }

  lemma StepKeepsUnwritten(ttl: int, s: Sys, a: Action, j: nat)
    requires Inv(s) && Enabled(s, a) && j < |s.conns|
    ensures var s' := Step(ttl, s, a); Unwritten(s'.key, s'.conns[j], j)
  {
    assert ConnInv(s, j);
  }

  /** A goroutine that has decided did so before, or decides by this step, under the same id. */
  lemma DecidesOnce(ttl: int, s: Sys, a: Action, j: nat, g: bool)
    requires Enabled(s, a) && j < |s.conns| && Phased(s.conns[j])
    ensures var c, c' := s.conns[j], Step(ttl, s, a).conns[j];
            PcOf(c', g).Saw? ==>
              && c'.id == c.id
              && ((PcOf(c', g) == PcOf(c, g) && !(a.SetFields? && a.i == j && a.hb == g))
                  || (a.ReadRoute? && PcOf(c', g).dec == Decide(PcOf(c', g).op, c.id, Base(s.key, a.at))))
  {
    hide StepKey, FreshId, Decide, Base;
  }

  /** Only a write gives the route an owner. */
  lemma OwnerStays(ttl: int, s: Sys, a: Action)
    requires Enabled(s, a) && !a.SetFields?
    ensures var now := Owner(StepKey(ttl, s, a), a.at); now == None || now == Owner(s.key, a.at)
  {
  }

  /** A decision that is not a bind's, and not to do nothing, found no owner or its own connection; a route without a node has none. */
  lemma DecidesOnOwn(key: Option<Hash>, conns: seq<Conn>, op: Op, id: string, at: int)
    requires Written(key, conns) && !op.Bind? && !Decide(op, id, Base(key, at)).Nothing?
    requires key.Some? && key.value.connID.Some? ==> conns[key.value.writer].node != ""
    ensures Owner(key, at) == None || Owner(key, at) == Some(id)
  {
  }

  lemma StepKeepsDecided(ttl: int, s: Sys, a: Action, j: nat, g: bool)
    requires Inv(s) && Enabled(s, a) && j < |s.conns|
    ensures var s' := Step(ttl, s, a); Decided(s'.key, s'.time, s'.conns[j], PcOf(s'.conns[j], g))
  {
    hide LockInv, Written, Phased, Unwritten, Removed, StepConn, FreshId, Decide, Owner, StepKey;
    assert ConnInv(s, j);
    DecidesOnce(ttl, s, a, j, g);
    OwnerFades(s.key, s.time, a.at);
    var c, pc := s.conns[j], PcOf(Step(ttl, s, a).conns[j], g);
    if a.SetFields? {
      if HasSection(PcOf(c, g)) && a.at < PcOf(c, g).until {
        MutualExclusion(s, a.i, a.hb, j, g);
      }
    } else {
      OwnerStays(ttl, s, a);
      if a.ReadRoute? && pc.Saw? && !pc.op.Bind? && !Decide(pc.op, c.id, Base(s.key, a.at)).Nothing? {
        WriterHasNode(s);
        DecidesOnOwn(s.key, s.conns, pc.op, c.id, a.at);
      }
    }
  }

  lemma WriterHasNode(s: Sys)
    requires Inv(s)
    ensures s.key.Some? && s.key.value.connID.Some? ==> s.key.value.writer < |s.conns| && s.conns[s.key.value.writer].node != ""
  {
    if s.key.Some? && s.key.value.connID.Some? {
      assert ConnInv(s, s.key.value.writer);
    }
  }

  lemma StepKeepsRemoved(ttl: int, s: Sys, a: Action, j: nat)
    requires Inv(s) && Enabled(s, a) && j < |s.conns|
    ensures var s' := Step(ttl, s, a); Removed(s'.key, s'.time, s'.conns[j])
  {
    assert ConnInv(s, j);
    OwnerFades(s.key, s.time, a.at);
  }

  lemma StepKeepsIds(ttl: int, s: Sys, a: Action, i: nat, j: nat)
    requires Enabled(s, a) && i < j < |s.conns| && s.conns[i].id != s.conns[j].id
    ensures Step(ttl, s, a).conns[i].id != Step(ttl, s, a).conns[j].id
  {
    hide StepKey, Decide, Owner;
  }

  lemma StepKeepsInv(ttl: int, s: Sys, a: Action)
    requires Inv(s) && Enabled(s, a)
    ensures Inv(Step(ttl, s, a))
  {
    hide StepKey, StepConn, LockInv, Written, Phased, Unwritten, Removed, Decided, FreshId;
    var s' := Step(ttl, s, a);
    StepKeepsLockInv(ttl, s, a);
    StepKeepsWritten(ttl, s, a);
    forall j | 0 <= j < |s'.conns|
      ensures ConnInv(s', j)
    {
      assert ConnInv(s, j);
      StepKeepsPhased(ttl, s, a, j);
      StepKeepsUnwritten(ttl, s, a, j);
      StepKeepsRemoved(ttl, s, a, j);
      StepKeepsDecided(ttl, s, a, j, false);
      StepKeepsDecided(ttl, s, a, j, true);
    }
    forall i, j | 0 <= i < j < |s'.conns|
      ensures s'.conns[i].id != s'.conns[j].id
    {
      StepKeepsIds(ttl, s, a, i, j);
    }
  }

  lemma {:induction false} RunKeepsInv(ttl: int, s: Sys, run: seq<Action>)
    requires Inv(s) && Legal(ttl, s, run)
    ensures Inv(Exec(ttl, s, run))
    decreases |run|
  {
    if run != [] {
      StepKeepsInv(ttl, s, run[0]);
      RunKeepsInv(ttl, Step(ttl, s, run[0]), run[1..]);
    }
  }

  lemma InitHolds(s: Sys)
    requires Init(s)
    ensures Inv(s)
  {
  }

  // ----- what every run keeps -----

  /**
   Route ownership: in every run, a route naming c goes away only by c's own removal or by expiry, and comes
   to name another connection only by that connection's bind, or by its write once the route had expired.
   */
  lemma RouteOwnership(ttl: int, s: Sys, run: seq<Action>, a: Action, c: string)
    requires ttl > 0 && Init(s) && Legal(ttl, s, run)
    requires var t := Exec(ttl, s, run); Enabled(t, a) && Owner(t.key, t.time) == Some(c)
    ensures var t := Exec(ttl, s, run);
            var now := Owner(Step(ttl, t, a).key, a.at);
            || now == Some(c)
            || !Live(t.key, a.at)
            || (now == None && a.DeleteRoute? && t.conns[a.i].id == c)
            || (a.SetFields? && now == Some(t.conns[a.i].id) && PcOf(t.conns[a.i], a.hb).op.Bind?)
  {
    hide Inv, StepKey, StepConn, Init;
    InitHolds(s);
    RunKeepsInv(ttl, s, run);
    OwnerSteps(ttl, Exec(ttl, s, run), a);
  }

  /** A name routes exactly when a connection owns it, and then to that connection's own node under its own id. */
  lemma RoutesLeadToTheOwner(ttl: int, s: Sys, run: seq<Action>)
    requires Init(s) && Legal(ttl, s, run)
    ensures var t := Exec(ttl, s, run);
            && (LookupRoute(t.key, t.time).Some? <==> Owner(t.key, t.time).Some?)
            && (LookupRoute(t.key, t.time).Some? ==> exists i | 0 <= i < |t.conns| :: LookupRoute(t.key, t.time) == Some((t.conns[i].node, t.conns[i].id)))
  {
    InitHolds(s);
    RunKeepsInv(ttl, s, run);
    var t := Exec(ttl, s, run);
    if t.key.Some? && t.key.value.connID.Some? {
      assert ConnInv(t, t.key.value.writer);
    }
  }

  lemma {:induction false} GoneStays(ttl: int, s: Sys, run: seq<Action>, i: nat)
    requires Inv(s) && Legal(ttl, s, run) && i < |s.conns| && s.conns[i].life == Gone(true)
    ensures var t := Exec(ttl, s, run); i < |t.conns| && t.conns[i].life == Gone(true) && t.conns[i].id == s.conns[i].id
    decreases |run|
  {
    if run != [] {
      assert ConnInv(s, i);
      StepKeepsInv(ttl, s, run[0]);
      GoneStays(ttl, Step(ttl, s, run[0]), run[1..], i);
    }
  }

  /**
   No resurrection: once a teardown has removed its route without error, whatever runs afterwards and however
   much time passes, the route never names that connection again.
   */
  lemma NoResurrection(ttl: int, s: Sys, run: seq<Action>, i: nat, later: seq<Action>, at: int)
    requires Init(s) && Legal(ttl, s, run)
    requires var t := Exec(ttl, s, run); i < |t.conns| && t.conns[i].life == Gone(true) && Legal(ttl, t, later)
    requires at >= Exec(ttl, Exec(ttl, s, run), later).time
    ensures var t := Exec(ttl, s, run); Owner(Exec(ttl, t, later).key, at) != Some(t.conns[i].id)
  {
    hide LockInv, Written, Init, Step, Enabled;
    InitHolds(s);
    RunKeepsInv(ttl, s, run);
    var t := Exec(ttl, s, run);
    GoneStays(ttl, t, later, i);
    RunKeepsInv(ttl, t, later);
    var u := Exec(ttl, t, later);
    assert ConnInv(u, i);
    OwnerFades(u.key, u.time, at);
  }

  // ----- a refresh is not owner-conditional to the end -----

  /** An action of the connection's heartbeat between reading the owner and acting on what it read. */
  predicate EndsBeat(a: Action, i: nat) {
    (a.BeatExpire? || a.BeatExit?) && a.i == i
  }

  /** Some connection wrote the route. */
  predicate Wrote(run: seq<Action>) {
    exists k :: 0 <= k < |run| && run[k].SetFields?
  }

  /** The route names the connection exactly if nobody has written it since; a route that names nobody does not matter. */
  ghost predicate NamedUnlessWritten(s: Sys, i: nat, wrote: bool)
    requires i < |s.conns|
  {
    s.key.Some? && s.key.value.connID.Some? ==> (s.key.value.connID == Some(s.conns[i].id) <==> !wrote)
  }

  /** While its heartbeat is between reading and refreshing, the connection keeps its id and writes nothing. */
  lemma RefreshingConn(ttl: int, s: Sys, a: Action, i: nat)
    requires i < |s.conns| && Phased(s.conns[i]) && Enabled(s, a) && s.conns[i].beat.Refreshing? && !EndsBeat(a, i)
    ensures var t := Step(ttl, s, a);
            i < |t.conns| && t.conns[i].beat.Refreshing? && t.conns[i].id == s.conns[i].id && (a.SetFields? ==> a.i != i)
  {
    hide StepKey, FreshId, Decide, Owner;
  }

  lemma StepNames(ttl: int, s: Sys, a: Action, i: nat, wrote: bool)
    requires Inv(s) && Enabled(s, a) && i < |s.conns| && s.conns[i].beat.Refreshing? && !EndsBeat(a, i)
    requires NamedUnlessWritten(s, i, wrote)
    ensures var t := Step(ttl, s, a);
            i < |t.conns| && t.conns[i].beat.Refreshing? && t.conns[i].id == s.conns[i].id && NamedUnlessWritten(t, i, wrote || a.SetFields?)
  {
    hide LockInv, Written, Unwritten, Removed, Decided, Phased, StepConn, FreshId;
    assert ConnInv(s, i);
    RefreshingConn(ttl, s, a, i);
  }

  lemma {:induction false} RunNames(ttl: int, s: Sys, run: seq<Action>, i: nat, wrote: bool)
    requires Inv(s) && Legal(ttl, s, run) && i < |s.conns| && s.conns[i].beat.Refreshing?
    requires forall k :: 0 <= k < |run| ==> !EndsBeat(run[k], i)
    requires NamedUnlessWritten(s, i, wrote)
    ensures var t := Exec(ttl, s, run); i < |t.conns| && t.conns[i].id == s.conns[i].id && NamedUnlessWritten(t, i, wrote || Wrote(run))
    decreases |run|
  {
    hide Inv, NamedUnlessWritten, Enabled, Step;
    if run != [] {
      StepNames(ttl, s, run[0], i, wrote);
      StepKeepsInv(ttl, s, run[0]);
      RunNames(ttl, Step(ttl, s, run[0]), run[1..], i, wrote || run[0].SetFields?);
      WroteSplits(run);
    }
  }

  lemma WroteSplits(run: seq<Action>)
    requires run != []
    ensures Wrote(run) <==> run[0].SetFields? || Wrote(run[1..])
  {
    if Wrote(run[1..]) {
      var k :| 0 <= k < |run[1..]| && run[1..][k].SetFields?;
      assert run[k + 1].SetFields?;
    }
    if Wrote(run) && !run[0].SetFields? {
      var k :| 0 <= k < |run| && run[k].SetFields?;
      assert run[1..][k - 1].SetFields?;
    }
  }

  /** The refresh falls on a route that names another connection. */
  predicate ReachesAnother(s: Sys, i: nat, at: int)
    requires i < |s.conns|
  {
    Owner(s.key, at).Some? && Owner(s.key, at) != Some(s.conns[i].id)
  }

  /**
   Exactly when a refresh extends another connection's route, in every run: the heartbeat of connection i reads its own
   id, anything may happen, and it refreshes. If a route is there, it names another connection if and only if somebody
   wrote it in between. Whatever it names, the refresh changes the expiry and nothing else.
   */
  lemma RefreshReachesAnotherExactly(ttl: int, s: Sys, run: seq<Action>, i: nat, read: Action, between: seq<Action>, at: int)
    requires Init(s) && Legal(ttl, s, run) && read.BeatGet? && read.i == i
    requires var t := Exec(ttl, s, run);
             && Enabled(t, read) && Owner(t.key, read.at) == Some(t.conns[i].id) && Legal(ttl, Step(ttl, t, read), between)
    requires forall k :: 0 <= k < |between| ==> !EndsBeat(between[k], i)
    requires Enabled(Exec(ttl, Step(ttl, Exec(ttl, s, run), read), between), BeatExpire(i, at))
    ensures var u := Exec(ttl, Step(ttl, Exec(ttl, s, run), read), between);
            var key := Step(ttl, u, BeatExpire(i, at)).key;
            && (ReachesAnother(u, i, at) <==> Owner(u.key, at).Some? && Wrote(between))
            && (if Live(u.key, at) then key == Some(u.key.value.(expires := Some(at + ttl))) else key == u.key)
  {
    hide Inv, Init, Legal, Exec;
    InitHolds(s);
    RunKeepsInv(ttl, s, run);
    var t := Exec(ttl, s, run);
    StepKeepsInv(ttl, t, read);
    RunNames(ttl, Step(ttl, t, read), between, i, false);
  }

  ghost predicate Reaches(ttl: int, s0: Sys, s: Sys) {
    exists run :: Legal(ttl, s0, run) && Exec(ttl, s0, run) == s
  }

  lemma {:induction false} OneMore(ttl: int, s: Sys, run: seq<Action>, a: Action)
    requires Legal(ttl, s, run) && Enabled(Exec(ttl, s, run), a)
    ensures Legal(ttl, s, run + [a]) && Exec(ttl, s, run + [a]) == Step(ttl, Exec(ttl, s, run), a)
    decreases |run|
  {
    if run == [] {
      assert ([] + [a])[1..] == [];
    } else {
      OneMore(ttl, Step(ttl, s, run[0]), run[1..], a);
      assert (run + [a])[1..] == run[1..] + [a];
    }
  }

  lemma ReachStep(ttl: int, s0: Sys, s: Sys, a: Action, t: Sys)
    requires Reaches(ttl, s0, s) && Enabled(s, a) && Step(ttl, s, a) == t
    ensures Reaches(ttl, s0, t)
  {
    var run :| Legal(ttl, s0, run) && Exec(ttl, s0, run) == s;
    OneMore(ttl, s0, run, a);
  }

  lemma ReachStart(ttl: int, s: Sys)
    ensures Reaches(ttl, s, s)
  {
    assert Legal(ttl, s, []) && Exec(ttl, s, []) == s;
  }

  const TTL: int := 90 * SECOND
  const FIRST := Conn("a", "node-1", Dialing, Rest, NotStarted, Rest)
  const SECOND_CONN := Conn("b", "node-2", Dialing, Rest, NotStarted, Rest)
  const TWO_CONNS := Sys(0, None, None, 0, [FIRST, SECOND_CONN])

  function RouteOf(c: Conn, expires: Option<int>, writer: nat): Option<Hash> {
    Some(Hash(Some(c.node), Some(c.id), 0, 0, expires, writer))
  }

  /** The first connection's heartbeat has read its own id and has not sent its refresh yet. */
  const ABOUT_TO_REFRESH := Sys(0, RouteOf(FIRST, Some(TTL), 0), None, 1, [FIRST.(life := Up, beat := Refreshing), SECOND_CONN])

  /** The second connection has replaced the route one second later. */
  const REPLACED := Sys(SECOND, RouteOf(SECOND_CONN, Some(SECOND + TTL), 1), Some(Lock(1, SECOND + LOCK_TTL)), 2,
                        [FIRST.(life := Up, beat := Refreshing), SECOND_CONN.(main := Out(Bind, 1, SECOND + LOCK_TTL, Done))])

  const BOUND := TWO_CONNS.(key := RouteOf(FIRST, Some(TTL), 0), lock := Some(Lock(0, LOCK_TTL)), minted := 1,
                            conns := [FIRST.(main := Out(Bind, 0, LOCK_TTL, Done)), SECOND_CONN])

  lemma FirstBinds()
    ensures Reaches(TTL, TWO_CONNS, BOUND)
  {
    hide Legal, Exec, Reaches;
    var s0 := TWO_CONNS;
    ReachStart(TTL, s0);
    var s1 := s0.(lock := Some(Lock(0, LOCK_TTL)), minted := 1, conns := [FIRST.(main := In(Bind, 0, LOCK_TTL)), SECOND_CONN]);
    ReachStep(TTL, s0, s0, Acquire(0, false, Bind, 0), s1);
    var s2 := s1.(conns := [FIRST.(main := Saw(Bind, 0, LOCK_TTL, WriteRoute(true))), SECOND_CONN]);
    ReachStep(TTL, s0, s1, ReadRoute(0, false, 0), s2);
    var s3 := s2.(key := RouteOf(FIRST, None, 0), conns := [FIRST.(main := Half(Bind, 0, LOCK_TTL)), SECOND_CONN]);
    ReachStep(TTL, s0, s2, SetFields(0, false, 0), s3);
    ReachStep(TTL, s0, s3, SetExpiry(0, false, 0), BOUND);
  }

  lemma FirstReleases()
    ensures Reaches(TTL, TWO_CONNS, BOUND.(lock := None, conns := [FIRST.(life := Up), SECOND_CONN]))
  {
    FirstBinds();
    var s := BOUND.(conns := [FIRST.(main := Mine(Bind, 0, LOCK_TTL, Done)), SECOND_CONN]);
    ReachStep(TTL, TWO_CONNS, BOUND, GetLock(0, false, "c", 0), s);
    ReachStep(TTL, TWO_CONNS, s, DelLock(0, false, "c", 0), BOUND.(lock := None, conns := [FIRST.(life := Up), SECOND_CONN]));
  }

  lemma FirstIsAboutToRefresh()
    ensures Reaches(TTL, TWO_CONNS, ABOUT_TO_REFRESH)
  {
    FirstReleases();
    var s := BOUND.(lock := None, conns := [FIRST.(life := Up), SECOND_CONN]);
    var t := s.(conns := [FIRST.(life := Up, beat := Ticking), SECOND_CONN]);
    ReachStep(TTL, TWO_CONNS, s, StartBeat(0, 0), t);
    ReachStep(TTL, TWO_CONNS, t, BeatGet(0, false, 0), ABOUT_TO_REFRESH);
  }

  const DECIDED := Sys(SECOND, ABOUT_TO_REFRESH.key, Some(Lock(1, SECOND + LOCK_TTL)), 2,
                       [FIRST.(life := Up, beat := Refreshing), SECOND_CONN.(main := Saw(Bind, 1, SECOND + LOCK_TTL, WriteRoute(true)))])

  lemma SecondDecides()
    ensures Reaches(TTL, TWO_CONNS, DECIDED)
  {
    FirstIsAboutToRefresh();
    var s := DECIDED.(conns := [DECIDED.conns[0], SECOND_CONN.(main := In(Bind, 1, SECOND + LOCK_TTL))]);
    ReachStep(TTL, TWO_CONNS, ABOUT_TO_REFRESH, Acquire(1, false, Bind, SECOND), s);
    ReachStep(TTL, TWO_CONNS, s, ReadRoute(1, false, SECOND), DECIDED);
  }

  lemma SecondReplaces()
    ensures Reaches(TTL, TWO_CONNS, REPLACED)
  {
    SecondDecides();
    var s := DECIDED.(key := RouteOf(SECOND_CONN, Some(TTL), 1), conns := [DECIDED.conns[0], SECOND_CONN.(main := Half(Bind, 1, SECOND + LOCK_TTL))]);
    ReachStep(TTL, TWO_CONNS, DECIDED, SetFields(1, false, SECOND), s);
    ReachStep(TTL, TWO_CONNS, s, SetExpiry(1, false, SECOND), REPLACED);
  }

  /**
   The heartbeat reads the owner and sends the refresh in two commands without the lock, so a superseded
   connection can extend the route of its successor, the owner staying who it is.
   */
  lemma SupersededRefreshExtendsTheSuccessor()
    ensures Init(TWO_CONNS) && Reaches(TTL, TWO_CONNS, REPLACED)
    ensures var a := BeatExpire(0, 2 * SECOND);
            && Enabled(REPLACED, a) && Owner(REPLACED.key, SECOND) == Some("b") && REPLACED.conns[0].id == "a"
            && Step(TTL, REPLACED, a).key == RouteOf(SECOND_CONN, Some(2 * SECOND + TTL), 1)
  {
    SecondReplaces();
  }
}
