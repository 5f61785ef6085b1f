/**
 What the sections on a route achieve: when a bind, a self-heal or a removal acts and when it declines, where the name
 leads afterwards, and whose traffic the byte counters count.
 */
module RouteEffects {
  import opened Basics
  import opened Routes

  // ----- what a section decides -----

  /** A connection that has not come to write the route for its bind is not its owner. */
  lemma DialingIsUnwritten(s: Sys, i: nat)
    requires Inv(s) && i < |s.conns| && s.conns[i].life.Dialing? && (s.conns[i].main.Rest? || s.conns[i].main.In?)
    ensures s.key.Some? ==> s.key.value.connID != Some(s.conns[i].id)
  {
    assert ConnInv(s, i);
    if s.key.Some? && s.key.value.connID.Some? {
      var w := s.key.value.writer;
      assert w != i;
      assert if w < i then s.conns[w].id != s.conns[i].id else s.conns[i].id != s.conns[w].id;
    }
  }

  lemma OwnerHasNode(s: Sys, at: int)
    requires Inv(s)
    ensures var h := Base(s.key, at); h.connID.Some? <==> h.node.Some? && h.node.value != ""
  {
    WriterHasNode(s);
  }

  /**
   What a section decides, in every run, told by the owner at the moment it reads: a bind always writes, with the counters
   reset; a self-heal writes afresh when there is no owner, keeps the counters when it owns the route, and declines exactly
   when another connection does; a removal deletes exactly its own route.
   */
  lemma SectionsDecideByTheOwner(ttl: int, s: Sys, run: seq<Action>, a: Action)
    requires Init(s) && Legal(ttl, s, run) && a.ReadRoute? && Enabled(Exec(ttl, s, run), a)
    ensures var t := Exec(ttl, s, run);
            var owner, own := Owner(t.key, a.at), Some(t.conns[a.i].id);
            var pc := PcOf(Step(ttl, t, a).conns[a.i], a.hb);
            && pc.Saw?
            && pc.dec == match pc.op
                         case Bind => WriteRoute(true)
                         case Heal => if owner == None then WriteRoute(true) else if owner == own then WriteRoute(false) else Nothing
                         case Unbind => if owner == own then Delete else Nothing
  {
    hide Init, Legal, Exec;
    InitHolds(s);
    RunKeepsInv(ttl, s, run);
    var t := Exec(ttl, s, run);
    assert ConnInv(t, a.i);
    OwnerHasNode(t, a.at);
    var pc := PcOf(t.conns[a.i], a.hb);
    if pc.op.Bind? {
      DialingIsUnwritten(t, a.i);
    }
  }

  /** In every run, after a section wrote the route the name leads to its connection, and after one deleted it nowhere. */
  lemma WritesLeadHere(ttl: int, s: Sys, run: seq<Action>, a: Action)
    requires Init(s) && Legal(ttl, s, run) && Enabled(Exec(ttl, s, run), a) && (a.SetFields? || a.DeleteRoute?)
    ensures var t := Exec(ttl, s, run);
            LookupRoute(Step(ttl, t, a).key, a.at) == if a.SetFields? then Some((t.conns[a.i].node, t.conns[a.i].id)) else None
  {
    hide Init, Legal, Exec;
    InitHolds(s);
    RunKeepsInv(ttl, s, run);
    assert ConnInv(Exec(ttl, s, run), a.i);
  }

  // ----- a superseded connection stops -----

  lemma {:induction false} ExitedStays(ttl: int, s: Sys, run: seq<Action>, i: nat)
    requires Legal(ttl, s, run) && i < |s.conns| && s.conns[i].beat.Exited? && s.conns[i].hb.Rest?
    ensures i < |Exec(ttl, s, run).conns| && Exec(ttl, s, run).conns[i].beat.Exited? && Exec(ttl, s, run).conns[i].hb.Rest?
    decreases |run|
  {
    if run != [] {
      ExitedStep(ttl, s, run[0], i);
      ExitedStays(ttl, Step(ttl, s, run[0]), run[1..], i);
    }
  }

  lemma ExitedStep(ttl: int, s: Sys, a: Action, i: nat)
    requires Enabled(s, a) && i < |s.conns| && s.conns[i].beat.Exited? && s.conns[i].hb.Rest?
    ensures i < |Step(ttl, s, a).conns| && Step(ttl, s, a).conns[i].beat.Exited? && Step(ttl, s, a).conns[i].hb.Rest?
  {
    hide StepKey, FreshId, Decide, Owner;
  }

  /**
   In every run, a heartbeat that finds another connection's route is over: it never refreshes or restores the route again,
   and unless its node is draining the connection, if it was up, is being closed.
   */
  lemma SupersededStops(ttl: int, s: Sys, run: seq<Action>, i: nat, draining: bool, at: int, later: seq<Action>)
    requires Init(s) && Legal(ttl, s, run) && Enabled(Exec(ttl, s, run), BeatGet(i, draining, at))
    requires var t := Exec(ttl, s, run); Owner(t.key, at).Some? && Owner(t.key, at) != Some(t.conns[i].id)
    requires Legal(ttl, Step(ttl, Exec(ttl, s, run), BeatGet(i, draining, at)), later)
    ensures var t := Exec(ttl, s, run);
            var u := Step(ttl, t, BeatGet(i, draining, at));
            && (t.conns[i].life.Up? ==> u.conns[i].life == if draining then Up else Closing)
            && i < |Exec(ttl, u, later).conns| && Exec(ttl, u, later).conns[i].beat.Exited? && Exec(ttl, u, later).conns[i].hb.Rest?
  {
    hide Init, Legal, Exec;
    InitHolds(s);
    RunKeepsInv(ttl, s, run);
    var t := Exec(ttl, s, run);
    assert ConnInv(t, i);
    ExitedStays(ttl, Step(ttl, t, BeatGet(i, draining, at)), later, i);
  }

  // ----- a route can be had -----

  /** The name leads to connection i until the route's lifetime ends, and then nowhere. */
  ghost predicate Leads(ttl: int, s: Sys, i: nat, at: int) {
    i < |s.conns| && forall x :: at <= x ==> LookupRoute(s.key, x) == if x < at + ttl then Some((s.conns[i].node, s.conns[i].id)) else None
  }

  lemma ReachThen(ttl: int, s0: Sys, s: Sys, a: Action)
    requires Reaches(ttl, s0, s) && Enabled(s, a)
    ensures Reaches(ttl, s0, Step(ttl, s, a))
  {
    ReachStep(ttl, s0, s, a, Step(ttl, s, a));
  }

  lemma SectionIsEntered(ttl: int, s: Sys, i: nat, hb: bool, op: Op, at: int)
    requires i < |s.conns| && MayEnter(s.conns[i], hb, op) && s.time <= at && !(s.lock.Some? && at < s.lock.value.until)
    ensures var c := s.conns[i];
            exists u :: Reaches(ttl, s, u) && u.key == s.key && u.time == at && i < |u.conns| && u.conns[i].id == c.id && u.conns[i].node == c.node
                        && PcOf(u.conns[i], hb) == Saw(op, s.minted, at + LOCK_TTL, Decide(op, c.id, Base(s.key, at)))
  {
    hide Reaches, Decide;
    ReachStart(ttl, s);
    ReachThen(ttl, s, s, Acquire(i, hb, op, at));
    var s1 := Step(ttl, s, Acquire(i, hb, op, at));
    ReachThen(ttl, s, s1, ReadRoute(i, hb, at));
  }

  lemma RouteIsWritten(ttl: int, s: Sys, i: nat, hb: bool, at: int)
    requires ttl > 0 && i < |s.conns| && s.conns[i].node != "" && s.time <= at
    requires PcOf(s.conns[i], hb).Saw? && PcOf(s.conns[i], hb).dec.WriteRoute? && at < PcOf(s.conns[i], hb).until
    ensures exists u :: Reaches(ttl, s, u) && Leads(ttl, u, i, at)
  {
    hide Reaches;
    ReachStart(ttl, s);
    ReachThen(ttl, s, s, SetFields(i, hb, at));
    var s1 := Step(ttl, s, SetFields(i, hb, at));
    ReachThen(ttl, s, s1, SetExpiry(i, hb, at));
    assert Leads(ttl, Step(ttl, s1, SetExpiry(i, hb, at)), i, at);
  }

  lemma {:induction false} RunsJoin(ttl: int, s: Sys, run: seq<Action>, later: seq<Action>)
    requires Legal(ttl, s, run) && Legal(ttl, Exec(ttl, s, run), later)
    ensures Legal(ttl, s, run + later) && Exec(ttl, s, run + later) == Exec(ttl, Exec(ttl, s, run), later)
    decreases |run|
  {
    hide Enabled, Step;
    if run == [] {
      assert run + later == later;
    } else {
      RunsJoin(ttl, Step(ttl, s, run[0]), run[1..], later);
      assert (run + later)[1..] == run[1..] + later;
    }
  }

  lemma ReachesJoin(ttl: int, s: Sys, t: Sys, u: Sys)
    requires Reaches(ttl, s, t) && Reaches(ttl, t, u)
    ensures Reaches(ttl, s, u)
  {
    hide Enabled, Step;
    var run :| Legal(ttl, s, run) && Exec(ttl, s, run) == t;
    var later :| Legal(ttl, t, later) && Exec(ttl, t, later) == u;
    RunsJoin(ttl, s, run, later);
  }

  lemma SectionRoutes(ttl: int, s: Sys, i: nat, hb: bool, op: Op, at: int)
    requires ttl > 0 && i < |s.conns| && s.conns[i].node != "" && MayEnter(s.conns[i], hb, op) && s.time <= at
    requires !(s.lock.Some? && at < s.lock.value.until) && Decide(op, s.conns[i].id, Base(s.key, at)).WriteRoute?
    ensures exists u :: Reaches(ttl, s, u) && Leads(ttl, u, i, at)
  {
    hide Reaches, Leads, Decide, MayEnter;
    var c := s.conns[i];
    SectionIsEntered(ttl, s, i, hb, op, at);
    var m :| Reaches(ttl, s, m) && m.key == s.key && m.time == at && i < |m.conns| && m.conns[i].id == c.id && m.conns[i].node == c.node
             && PcOf(m.conns[i], hb) == Saw(op, s.minted, at + LOCK_TTL, Decide(op, c.id, Base(s.key, at)));
    RouteIsWritten(ttl, m, i, hb, at);
    var u :| Reaches(ttl, m, u) && Leads(ttl, u, i, at);
    ReachesJoin(ttl, s, m, u);
  }

  /**
   Self-heal: from every reachable state in which a connection's heartbeat looks at a route that is gone and the lock is
   free, the connection can bind the route afresh, and the name leads to it for the route's lifetime.
   */
  lemma LostRouteCanBeHealed(ttl: int, s: Sys, run: seq<Action>, i: nat, draining: bool, at: int)
    requires ttl > 0 && Init(s) && Legal(ttl, s, run)
    requires var t := Exec(ttl, s, run);
             && i < |t.conns| && t.conns[i].beat.Ticking? && t.conns[i].hb.Rest? && t.time <= at
             && Owner(t.key, at) == None && !(t.lock.Some? && at < t.lock.value.until)
    ensures exists u :: Reaches(ttl, Exec(ttl, s, run), u) && Leads(ttl, u, i, at)
  {
    hide Init, Legal, Exec, Reaches, Leads;
    InitHolds(s);
    RunKeepsInv(ttl, s, run);
    var t := Exec(ttl, s, run);
    OwnerHasNode(t, at);
    assert ConnInv(t, i);
    var m := Step(ttl, t, BeatGet(i, draining, at));
    ReachStart(ttl, t);
    ReachThen(ttl, t, t, BeatGet(i, draining, at));
    SectionRoutes(ttl, m, i, true, Heal, at);
    var u :| Reaches(ttl, m, u) && Leads(ttl, u, i, at);
    ReachesJoin(ttl, t, m, u);
  }

  /** From every reachable state in which a connection dials in and the lock is free, it can take the name over. */
  lemma RouteCanBeBound(ttl: int, s: Sys, run: seq<Action>, i: nat, at: int)
    requires ttl > 0 && Init(s) && Legal(ttl, s, run)
    requires var t := Exec(ttl, s, run);
             && i < |t.conns| && t.conns[i].life.Dialing? && t.conns[i].main.Rest? && t.time <= at && !(t.lock.Some? && at < t.lock.value.until)
    ensures exists u :: Reaches(ttl, Exec(ttl, s, run), u) && Leads(ttl, u, i, at)
  {
    hide Init, Legal, Exec, Reaches, Leads;
    InitHolds(s);
    RunKeepsInv(ttl, s, run);
    var t := Exec(ttl, s, run);
    assert ConnInv(t, i);
    DialingIsUnwritten(t, i);
    SectionRoutes(ttl, t, i, false, Bind, at);
  }

  // ----- whose bytes are counted -----

  /** A section that will reset the counters is not the owner's, and one that will keep them is no bind. */
  ghost predicate Resets(key: Option<Hash>, time: int, c: Conn, pc: Pc) {
    pc.Saw? && pc.dec.WriteRoute? ==>
      && (pc.dec.reset && time < pc.until ==> Owner(key, time) != Some(c.id))
      && (!pc.dec.reset ==> pc.op.Heal?)
  }

  ghost predicate ResetInv(s: Sys) {
    forall i, h :: 0 <= i < |s.conns| ==> Resets(s.key, s.time, s.conns[i], PcOf(s.conns[i], h))
  }

  lemma DecisionResets(s: Sys, i: nat, op: Op, at: int)
    requires Inv(s) && i < |s.conns| && (op.Bind? ==> s.key.Some? ==> s.key.value.connID != Some(s.conns[i].id))
    ensures var dec := Decide(op, s.conns[i].id, Base(s.key, at));
            dec.WriteRoute? ==> (dec.reset ==> Owner(s.key, at) != Some(s.conns[i].id)) && (!dec.reset ==> op.Heal?)
  {
    OwnerHasNode(s, at);
  }

  lemma StepKeepsResets(ttl: int, s: Sys, a: Action, j: nat, g: bool)
    requires Inv(s) && Enabled(s, a) && j < |s.conns| && Resets(s.key, s.time, s.conns[j], PcOf(s.conns[j], g))
    ensures var t := Step(ttl, s, a); Resets(t.key, t.time, t.conns[j], PcOf(t.conns[j], g))
  {
    hide LockInv, Written, Phased, Unwritten, Removed, Decided, StepConn, FreshId, Decide, Owner, StepKey;
    assert ConnInv(s, j);
    DecidesOnce(ttl, s, a, j, g);
    OwnerFades(s.key, s.time, a.at);
    var c, was, pc := s.conns[j], PcOf(s.conns[j], g), PcOf(Step(ttl, s, a).conns[j], g);
    if pc.Saw? {
      if a.SetFields? {
        if HasSection(was) && a.at < was.until {
          MutualExclusion(s, a.i, a.hb, j, g);
        }
      } else {
        OwnerStays(ttl, s, a);
        if a.ReadRoute? && pc != was {
          ReadsOwn(ttl, s, a, j, g);
          DecisionResets(s, j, pc.op, a.at);
        }
      }
    }
  }

  /** A section that has just read is the one that acted, under the same operation; a bind has written nothing yet. */
  lemma ReadsOwn(ttl: int, s: Sys, a: Action, j: nat, g: bool)
    requires Inv(s) && Enabled(s, a) && a.ReadRoute? && j < |s.conns| && PcOf(Step(ttl, s, a).conns[j], g) != PcOf(s.conns[j], g)
    ensures j == a.i && g == a.hb && PcOf(s.conns[j], g).In? && PcOf(Step(ttl, s, a).conns[j], g).op == PcOf(s.conns[j], g).op
    ensures PcOf(s.conns[j], g).op.Bind? ==> s.key.Some? ==> s.key.value.connID != Some(s.conns[j].id)
  {
    assert ConnInv(s, j);
    if PcOf(s.conns[j], g).In? && PcOf(s.conns[j], g).op.Bind? {
      DialingIsUnwritten(s, j);
    }
  }

  lemma {:induction false} RunKeepsResets(ttl: int, s: Sys, run: seq<Action>)
    requires Inv(s) && ResetInv(s) && Legal(ttl, s, run)
    ensures Inv(Exec(ttl, s, run)) && ResetInv(Exec(ttl, s, run))
    decreases |run|
  {
    hide Inv, Resets, StepConn, StepKey;
    if run != [] {
      var t := Step(ttl, s, run[0]);
      StepKeepsInv(ttl, s, run[0]);
      forall j, g | 0 <= j < |t.conns|
        ensures Resets(t.key, t.time, t.conns[j], PcOf(t.conns[j], g))
      {
        assert Resets(s.key, s.time, s.conns[j], PcOf(s.conns[j], g));
        StepKeepsResets(ttl, s, run[0], j, g);
      }
      RunKeepsResets(ttl, t, run[1..]);
    }
  }

  /**
   In every step a route that is there keeps its lifetime, or has a full one from now on by a write's expiry or a refresh; and a key
   without a lifetime gets one from these or from the cap on orphans. No traffic and no other connection shortens it.
   */
  lemma LifetimeIsKept(ttl: int, s: Sys, a: Action)
    requires Enabled(s, a) && Live(s.key, a.at) && !a.DeleteRoute?
    ensures var was, key := s.key.value.expires, Step(ttl, s, a).key;
            && key.Some?
            && (key.value.expires == was
                || ((a.SetExpiry? || a.BeatExpire?) && key.value.expires == Some(a.at + ttl))
                || (a.CapOrphan? && was.None? && key.value.expires == Some(a.at + ORPHAN_TTL)))
            && (a.SetExpiry? || a.BeatExpire? ==> key.value.expires == Some(a.at + ttl))
            && (a.CapOrphan? ==> key.value.expires.Some?)
  {
  }

  function Bytes(key: Option<Hash>, at: int): (int, int) {
    (Base(key, at).bytesIn, Base(key, at).bytesOut)
  }

  /**
   Whose bytes the counters hold, in every run. A write over another connection's route resets them and a write over the
   connection's own keeps them, so a session never sums onto the one before it; traffic adds what it carried, in its own
   direction; a deleted route has none; nothing else changes them.
   */
  lemma BytesAreTheSessions(ttl: int, s: Sys, run: seq<Action>, a: Action)
    requires ttl > 0 && Init(s) && Legal(ttl, s, run) && Enabled(Exec(ttl, s, run), a)
    ensures var t := Exec(ttl, s, run);
            var was, now, owner := Bytes(t.key, a.at), Bytes(Step(ttl, t, a).key, a.at), Owner(t.key, a.at);
            match a
            case SetFields(i, _, _) => owner.Some? ==> now == if owner == Some(t.conns[i].id) then was else (0, 0)
            case DeleteRoute(_, _, _) => now == (0, 0)
            case Traffic(bytesIn, bytesOut, _) => now == (was.0 + bytesIn, was.1 + bytesOut)
            case _ => now == was
  {
    hide Inv, ResetInv, Legal, Exec;
    InitHolds(s);
    StartIsReset(s);
    RunKeepsResets(ttl, s, run);
    var t := Exec(ttl, s, run);
    if a.SetFields? {
      WriteKeepsOwnBytes(ttl, t, a);
    }
  }

  lemma StartIsReset(s: Sys)
    requires Init(s)
    ensures ResetInv(s)
  {
  }

  lemma WriteKeepsOwnBytes(ttl: int, s: Sys, a: Action)
    requires Inv(s) && ResetInv(s) && Enabled(s, a) && a.SetFields?
    ensures var owner := Owner(s.key, a.at);
            owner.Some? ==> Bytes(Step(ttl, s, a).key, a.at) == if owner == Some(s.conns[a.i].id) then Bytes(s.key, a.at) else (0, 0)
  {
    hide LockInv, Written, Phased, Unwritten, Removed, StepConn;
    assert ConnInv(s, a.i);
    OwnerFades(s.key, s.time, a.at);
    assert Resets(s.key, s.time, s.conns[a.i], PcOf(s.conns[a.i], a.hb));
  }
}
