/**
 The dial-back rendezvous (internal/phoneconn/dialback.go): a waiter registers a token, a phone's connection
 is delivered to it under the same mutex, and whatever ends the wait takes the registration and a connection
 delivered too late away again. Each lock section, channel receive and close is one step.
 */
module DialBack {
  import opened Basics

  /** One registration: the tunnel it waits for and its one-slot channel. */
  datatype Slot = Slot(tunnel: string, conn: Option<nat>)

  /** The waiting map, and the channels of all waiters ever made. */
  datatype Desk = Desk(waiting: map<string, nat>, slots: seq<Slot>)

  // ----- the lock sections -----

  predicate Valid(d: Desk) {
    && (forall t :: t in d.waiting ==> d.waiting[t] < |d.slots| && d.slots[d.waiting[t]].conn.None?)
    && (forall t, u :: t in d.waiting && u in d.waiting && t != u ==> d.waiting[t] != d.waiting[u])
  }

  function Registered(d: Desk, token: string, w: nat): Desk {
    if token in d.waiting then d else d.(waiting := d.waiting[token := w])
  }

  function Unlisted(d: Desk, token: string, w: nat): Desk {
    if token in d.waiting && d.waiting[token] == w then d.(waiting := d.waiting - {token}) else d
  }

  predicate Expects(d: Desk, token: string, tunnel: string)
    requires Valid(d)
  {
    token in d.waiting && (tunnel == "" || d.slots[d.waiting[token]].tunnel == tunnel)
  }

  function Delivered(d: Desk, token: string, tunnel: string, c: nat): Desk
    requires Valid(d)
  {
    if !Expects(d, token, tunnel) then d
    else var w := d.waiting[token]; Desk(d.waiting - {token}, d.slots[w := d.slots[w].(conn := Some(c))])
  }

  class DialBacks {
    var waiting: map<string, nat>
    var slots: seq<Slot>

    ghost function View(): Desk
      reads this
    {
      Desk(waiting, slots)
    }

    constructor ()
      ensures View() == Desk(map[], []) && Valid(View())
    {
      waiting, slots := map[], [];
    }

    /** The start of Await: a new channel, listed under the token unless that is taken. */
    method Register(token: string, tunnel: string) returns (w: nat, dup: bool)
      requires Valid(View())
      modifies this
      ensures Valid(View()) && w == old(|slots|) && dup == (token in old(waiting))
      ensures View() == Registered(old(View()).(slots := old(slots) + [Slot(tunnel, None)]), token, w)
    {
      w := |slots|;
      slots := slots + [Slot(tunnel, None)];
      dup := token in waiting;
      if !dup {
        waiting := waiting[token := w];
      }
    }

    /** The locked half of abandon. */
    method Unlist(token: string, w: nat)
      requires Valid(View())
      modifies this
      ensures Valid(View()) && View() == Unlisted(old(View()), token, w)
    {
      if token in waiting && waiting[token] == w {
        waiting := waiting - {token};
      }
    }

    /** deliver: the channel is empty, so the send under the lock never blocks. */
    method Deliver(token: string, tunnel: string, c: nat) returns (ok: bool)
      requires Valid(View())
      modifies this
      ensures Valid(View()) && ok == Expects(old(View()), token, tunnel) && View() == Delivered(old(View()), token, tunnel, c)
    {
      if token !in waiting {
        return false;
      }
      var w := waiting[token];
      if tunnel != "" && slots[w].tunnel != tunnel {
        return false;
      }
      waiting := waiting - {token};
      assert slots[w].conn.None?;
      slots := slots[w := slots[w].(conn := Some(c))];
      return true;
    }
  }

  // ----- the machine -----

  /** Where an Await is; `result` is what it will return. */
  datatype Pc = Opening | Selecting | Leaving(result: Option<nat>) | Draining(result: Option<nat>) | Done(result: Option<nat>)

  datatype Waiter = Waiter(token: string, pc: Pc, accepted: nat)

  /** What became of a connection a phone made. */
  datatype Conn = Offered | Rejected | InSlot(w: nat) | ReturnedTo(w: nat) | Closed

  /** Waiter w owns slot w. */
  datatype Sys = Sys(desk: Desk, waiters: seq<Waiter>, conns: seq<Conn>)

  datatype Action =
    | Await(token: string, tunnel: string)
    | OpenOk(w: nat)
    | OpenFailed(w: nat)
    | Receive(w: nat)
    | Cancel(w: nat)
    | Unlist(w: nat)
    | Drain(w: nat)
    | Offer
    | Deliver(c: nat, token: string, tunnel: string)
    | CloseRejected(c: nat)

  const INIT := Sys(Desk(map[], []), [], [])

  predicate Enabled(s: Sys, a: Action) {
    match a
    case Await(_, _) => true
    case OpenOk(w) => w < |s.waiters| && s.waiters[w].pc.Opening?
    case OpenFailed(w) => w < |s.waiters| && s.waiters[w].pc.Opening?
    case Receive(w) => w < |s.waiters| && w < |s.desk.slots| && s.waiters[w].pc.Selecting? && s.desk.slots[w].conn.Some? && s.desk.slots[w].conn.value < |s.conns|
    case Cancel(w) => w < |s.waiters| && s.waiters[w].pc.Selecting?
    case Unlist(w) => w < |s.waiters| && s.waiters[w].pc.Leaving?
    case Drain(w) => w < |s.waiters| && w < |s.desk.slots| && s.waiters[w].pc.Draining? && (s.desk.slots[w].conn.Some? ==> s.desk.slots[w].conn.value < |s.conns|)
    case Offer => true
    case Deliver(c, token, tunnel) => Valid(s.desk) && c < |s.conns| && s.conns[c].Offered? && (token in s.desk.waiting ==> s.desk.waiting[token] < |s.waiters|)
    case CloseRejected(c) => c < |s.conns| && s.conns[c].Rejected?
  }

  function SetPc(s: Sys, w: nat, pc: Pc): Sys
    requires w < |s.waiters|
  {
    s.(waiters := s.waiters[w := s.waiters[w].(pc := pc)])
  }

  function Emptied(d: Desk, w: nat): Desk
    requires w < |d.slots|
  {
    d.(slots := d.slots[w := d.slots[w].(conn := None)])
  }

  function Step(s: Sys, a: Action): Sys
    requires Enabled(s, a)
  {
    match a
    case Await(token, tunnel) =>
      var w := |s.desk.slots|;
      Sys(Registered(s.desk.(slots := s.desk.slots + [Slot(tunnel, None)]), token, w),
          s.waiters + [Waiter(token, if token in s.desk.waiting then Done(None) else Opening, 0)], s.conns)
    case OpenOk(w) => SetPc(s, w, Selecting)
    case OpenFailed(w) => SetPc(s, w, Leaving(None))
    case Receive(w) =>
      var c := s.desk.slots[w].conn.value;
      SetPc(s, w, Leaving(Some(c))).(desk := Emptied(s.desk, w), conns := s.conns[c := ReturnedTo(w)])
    case Cancel(w) => SetPc(s, w, Leaving(None))
    case Unlist(w) => SetPc(s, w, Draining(s.waiters[w].pc.result)).(desk := Unlisted(s.desk, s.waiters[w].token, w))
    case Drain(w) =>
      var t := SetPc(s, w, Done(s.waiters[w].pc.result));
      if s.desk.slots[w].conn.None? then t else t.(desk := Emptied(s.desk, w), conns := s.conns[s.desk.slots[w].conn.value := Closed])
    case Offer => s.(conns := s.conns + [Offered])
    case Deliver(c, token, tunnel) =>
      if !Expects(s.desk, token, tunnel) then s.(conns := s.conns[c := Rejected])
      else
        var w := s.desk.waiting[token];
        Sys(Delivered(s.desk, token, tunnel, c), s.waiters[w := s.waiters[w].(accepted := s.waiters[w].accepted + 1)], s.conns[c := InSlot(w)])
    case CloseRejected(c) => s.(conns := s.conns[c := Closed])
  }

  predicate Legal(s: Sys, run: seq<Action>)
    decreases |run|
  {
    run == [] || (Enabled(s, run[0]) && Legal(Step(s, run[0]), run[1..]))
  }

  function Exec(s: Sys, run: seq<Action>): Sys
    requires Legal(s, run)
    decreases |run|
  {
    if run == [] then s else Exec(Step(s, run[0]), run[1..])
  }

  // ----- what every step keeps -----

  /** What the Await returns or will return. */
  function ResultOf(w: Waiter): Option<nat> {
    if w.pc.Leaving? || w.pc.Draining? || w.pc.Done? then w.pc.result else None
  }

  predicate Listed(s: Sys, w: nat)
    requires w < |s.waiters|
  {
    s.waiters[w].token in s.desk.waiting && s.desk.waiting[s.waiters[w].token] == w
  }

  /** A listed waiter has accepted nothing yet; one that has left the map never comes back to it. */
  ghost predicate WaiterInv(s: Sys, w: nat)
    requires w < |s.waiters| && |s.desk.slots| == |s.waiters|
  {
    && (Listed(s, w) ==> s.waiters[w].accepted == 0 && !s.waiters[w].pc.Draining? && !s.waiters[w].pc.Done?)
    && s.waiters[w].accepted <= 1
    && (s.desk.slots[w].conn.Some? ==> s.desk.slots[w].conn.value < |s.conns| && s.conns[s.desk.slots[w].conn.value] == InSlot(w) && !s.waiters[w].pc.Done?)
    && (ResultOf(s.waiters[w]).Some? ==> ResultOf(s.waiters[w]).value < |s.conns| && s.conns[ResultOf(s.waiters[w]).value] == ReturnedTo(w))
    && (s.desk.slots[w].conn.Some? || ResultOf(s.waiters[w]).Some? ==> s.waiters[w].accepted == 1)
    && (s.desk.slots[w].conn.None? || ResultOf(s.waiters[w]).None?)
  }

  ghost predicate ConnInv(s: Sys, c: nat)
    requires c < |s.conns| && |s.desk.slots| == |s.waiters|
  {
    && (s.conns[c].InSlot? ==> s.conns[c].w < |s.waiters| && s.desk.slots[s.conns[c].w].conn == Some(c))
    && (s.conns[c].ReturnedTo? ==> s.conns[c].w < |s.waiters| && ResultOf(s.waiters[s.conns[c].w]) == Some(c))
  }

  ghost predicate Inv(s: Sys) {
    && DeskInv(s)
    && (forall w :: 0 <= w < |s.waiters| ==> WaiterInv(s, w))
    && (forall c :: 0 <= c < |s.conns| ==> ConnInv(s, c))
  }

  /** The desk is in order and the waiting map points back to the waiters' own tokens. */
  ghost predicate DeskInv(s: Sys) {
    && Valid(s.desk) && |s.desk.slots| == |s.waiters|
    && forall t :: t in s.desk.waiting ==> s.desk.waiting[t] < |s.waiters| && s.waiters[s.desk.waiting[t]].token == t
  }

  lemma AwaitKeepsDesk(s: Sys, a: Action)
    requires DeskInv(s) && a.Await?
    ensures DeskInv(Step(s, a))
  {
  }

  lemma DeliverKeepsDesk(s: Sys, a: Action)
    requires DeskInv(s) && a.Deliver? && Enabled(s, a)
    ensures DeskInv(Step(s, a))
  {
  }

  lemma OwnStepKeepsDesk(s: Sys, a: Action)
    requires DeskInv(s) && !a.Deliver? && !a.Await? && Enabled(s, a)
    ensures DeskInv(Step(s, a))
  {
  }

  lemma StepKeepsDesk(s: Sys, a: Action)
    requires DeskInv(s) && Enabled(s, a)
    ensures DeskInv(Step(s, a))
  {
    hide DeskInv, Step;
    if a.Await? {
      AwaitKeepsDesk(s, a);
    } else if a.Deliver? {
      DeliverKeepsDesk(s, a);
    } else {
      OwnStepKeepsDesk(s, a);
    }
  }

  lemma OwnStepKeepsWaiter(s: Sys, a: Action, w: nat)
    requires Inv(s) && Enabled(s, a) && w < |s.waiters| && !a.Await? && !a.Offer? && !a.Deliver? && !a.CloseRejected?
    ensures |Step(s, a).desk.slots| == |Step(s, a).waiters| && WaiterInv(Step(s, a), w)
  {
    assert WaiterInv(s, w) && WaiterInv(s, a.w);
  }

  lemma DeliveryKeepsWaiter(s: Sys, a: Action, w: nat)
    requires Inv(s) && Enabled(s, a) && w < |s.waiters| && (a.Deliver? || a.Offer? || a.CloseRejected?)
    ensures |Step(s, a).desk.slots| == |Step(s, a).waiters| && WaiterInv(Step(s, a), w)
  {
    assert WaiterInv(s, w);
  }

  lemma AwaitKeepsWaiter(s: Sys, a: Action, w: nat)
    requires Inv(s) && a.Await? && w <= |s.waiters|
    ensures |Step(s, a).desk.slots| == |Step(s, a).waiters| && WaiterInv(Step(s, a), w)
  {
    if w < |s.waiters| {
      assert WaiterInv(s, w);
    }
  }

  lemma StepKeepsWaiter(s: Sys, a: Action, w: nat)
    requires Inv(s) && Enabled(s, a) && w < |Step(s, a).waiters|
    ensures |Step(s, a).desk.slots| == |Step(s, a).waiters| && WaiterInv(Step(s, a), w)
  {
    if a.Await? {
      AwaitKeepsWaiter(s, a, w);
    } else if a.Deliver? || a.Offer? || a.CloseRejected? {
      DeliveryKeepsWaiter(s, a, w);
    } else {
      OwnStepKeepsWaiter(s, a, w);
    }
  }

  lemma StepKeepsConn(s: Sys, a: Action, c: nat)
    requires Inv(s) && Enabled(s, a) && c < |Step(s, a).conns|
    ensures |Step(s, a).desk.slots| == |Step(s, a).waiters| && ConnInv(Step(s, a), c)
  {
    StepKeepsDesk(s, a);
    if c < |s.conns| {
      assert ConnInv(s, c);
    }
    if a.Receive? || a.Drain? {
      assert WaiterInv(s, a.w);
    } else if a.Deliver? && a.token in s.desk.waiting {
      assert WaiterInv(s, s.desk.waiting[a.token]);
    }
  }

  lemma StepKeepsInv(s: Sys, a: Action)
    requires Inv(s) && Enabled(s, a)
    ensures Inv(Step(s, a))
  {
    var t := Step(s, a);
    StepKeepsDesk(s, a);
    forall w | 0 <= w < |t.waiters|
      ensures WaiterInv(t, w)
    {
      StepKeepsWaiter(s, a, w);
    }
    forall c | 0 <= c < |t.conns|
      ensures ConnInv(t, c)
    {
      StepKeepsConn(s, a, c);
    }
  }

  lemma {:induction false} RunKeepsInv(s: Sys, run: seq<Action>)
    requires Inv(s) && Legal(s, run)
    ensures Inv(Exec(s, run))
    decreases |run|
  {
    if run != [] {
      StepKeepsInv(s, run[0]);
      RunKeepsInv(Step(s, run[0]), run[1..]);
    }
  }

  // ----- what every run keeps -----

  /** deliver never blocks: the channel of every listed waiter is empty; and no registration accepts two connections. */
  lemma DeliverNeverBlocks(run: seq<Action>)
    requires Legal(INIT, run)
    ensures var t := Exec(INIT, run);
            && Valid(t.desk)
            && (forall w :: 0 <= w < |t.waiters| ==> t.waiters[w].accepted <= 1)
  {
    RunKeepsInv(INIT, run);
    var t := Exec(INIT, run);
    forall w | 0 <= w < |t.waiters|
      ensures t.waiters[w].accepted <= 1
    {
      assert WaiterInv(t, w);
    }
  }

  /** A connection is returned by exactly the one Await whose result it is. */
  lemma ReturnedToOneWaiter(run: seq<Action>, c: nat, w: nat)
    requires Legal(INIT, run) && c < |Exec(INIT, run).conns| && w < |Exec(INIT, run).waiters|
    ensures var t := Exec(INIT, run); ResultOf(t.waiters[w]) == Some(c) <==> t.conns[c] == ReturnedTo(w)
  {
    RunKeepsInv(INIT, run);
    assert ConnInv(Exec(INIT, run), c) && WaiterInv(Exec(INIT, run), w);
  }

  /** No leak: once every Await has returned and every offered connection was handled, each connection was returned or closed. */
  lemma NoConnectionLeaks(run: seq<Action>, c: nat)
    requires Legal(INIT, run) && c < |Exec(INIT, run).conns|
    requires var t := Exec(INIT, run);
             && (forall w :: 0 <= w < |t.waiters| ==> t.waiters[w].pc.Done?)
             && (forall k :: 0 <= k < |t.conns| ==> !t.conns[k].Offered? && !t.conns[k].Rejected?)
    ensures var t := Exec(INIT, run); t.conns[c].ReturnedTo? || t.conns[c].Closed?
  {
    RunKeepsInv(INIT, run);
    var t := Exec(INIT, run);
    assert ConnInv(t, c);
    forall w | 0 <= w < |t.waiters|
      ensures t.desk.slots[w].conn.None?
    {
      assert WaiterInv(t, w);
    }
  }

  predicate IsSettled(s: Sys, c: nat) {
    c < |s.conns| && (s.conns[c].ReturnedTo? || s.conns[c].Closed?)
  }

  lemma StepKeepsFate(s: Sys, a: Action, c: nat)
    requires Inv(s) && Enabled(s, a) && IsSettled(s, c)
    ensures c < |Step(s, a).conns| && Step(s, a).conns[c] == s.conns[c]
  {
    if a.Receive? || a.Drain? {
      assert WaiterInv(s, a.w);
    }
  }

  lemma {:induction false} RunKeepsFate(s: Sys, run: seq<Action>, c: nat)
    requires Inv(s) && Legal(s, run) && IsSettled(s, c)
    ensures c < |Exec(s, run).conns| && Exec(s, run).conns[c] == s.conns[c]
    decreases |run|
  {
    hide Inv, Step, Enabled;
    if run != [] {
      StepKeepsFate(s, run[0], c);
      StepKeepsInv(s, run[0]);
      RunKeepsFate(Step(s, run[0]), run[1..], c);
    }
  }

  /** Never both, in any run: a connection that was returned stays returned to that waiter, and a closed one stays closed. */
  lemma ConnectionFateIsFinal(run: seq<Action>, later: seq<Action>, c: nat)
    requires Legal(INIT, run) && IsSettled(Exec(INIT, run), c) && Legal(Exec(INIT, run), later)
    ensures var t := Exec(Exec(INIT, run), later); c < |t.conns| && t.conns[c] == Exec(INIT, run).conns[c]
  {
    RunKeepsInv(INIT, run);
    RunKeepsFate(Exec(INIT, run), later, c);
  }

  // ----- a connection that is awaited is returned -----

  ghost predicate Reaches(s: Sys, t: Sys) {
    exists run :: Legal(s, run) && Exec(s, run) == t
  }

  lemma {:induction false} OneMore(s: Sys, run: seq<Action>, a: Action)
    requires Legal(s, run) && Enabled(Exec(s, run), a)
    ensures Legal(s, run + [a]) && Exec(s, run + [a]) == Step(Exec(s, run), a)
    decreases |run|
  {
    hide Enabled, Step;
    if run == [] {
      assert run + [a] == [a] && [a][1..] == [];
    } else {
      OneMore(Step(s, run[0]), run[1..], a);
      assert (run + [a])[1..] == run[1..] + [a];
    }
  }

  lemma ReachThen(s0: Sys, s: Sys, a: Action)
    requires Reaches(s0, s) && Enabled(s, a)
    ensures Reaches(s0, Step(s, a))
  {
    hide Enabled, Step;
    var run :| Legal(s0, run) && Exec(s0, run) == s;
    OneMore(s0, run, a);
  }

  lemma ReachSelf(s: Sys)
    ensures Reaches(s, s)
  {
    assert Legal(s, []) && Exec(s, []) == s;
  }

  /** The Await is over and returned the connection. */
  predicate Returns(s: Sys, w: nat, c: nat) {
    w < |s.waiters| && c < |s.conns| && s.waiters[w].pc == Done(Some(c)) && s.conns[c] == ReturnedTo(w)
  }

  /** What was delivered to a waiter that is selecting is what its Await returns. */
  lemma DeliveredIsReturned(s0: Sys, s: Sys, w: nat, c: nat)
    requires Reaches(s0, s) && Inv(s) && w < |s.waiters| && c < |s.conns| && s.waiters[w].pc.Selecting? && s.desk.slots[w].conn == Some(c)
    ensures exists u :: Reaches(s0, u) && Returns(u, w, c)
  {
    hide Reaches;
    ReachThen(s0, s, Receive(w));
    var s1 := Step(s, Receive(w));
    ReachThen(s0, s1, Unlist(w));
    var s2 := Step(s1, Unlist(w));
    ReachThen(s0, s2, Drain(w));
    assert Returns(Step(s2, Drain(w)), w, c);
  }

  /**
   In every run: a connection offered under a waiter's token and tunnel, or with no tunnel told, reaches that waiter, and
   if it is selecting, its Await can return it.
   */
  lemma AwaitedIsReturned(run: seq<Action>, w: nat, c: nat, tunnel: string)
    requires Legal(INIT, run)
    requires var s := Exec(INIT, run);
             && w < |s.waiters| && w < |s.desk.slots| && Listed(s, w) && s.waiters[w].pc.Selecting? && c < |s.conns| && s.conns[c].Offered?
             && (tunnel == "" || tunnel == s.desk.slots[w].tunnel)
    ensures exists u :: Reaches(Exec(INIT, run), u) && Returns(u, w, c)
  {
    hide Reaches, Returns, Legal, Exec;
    RunKeepsInv(INIT, run);
    var s := Exec(INIT, run);
    var a := Deliver(c, s.waiters[w].token, tunnel);
    ReachSelf(s);
    ReachThen(s, s, a);
    StepKeepsInv(s, a);
    DeliveredIsReturned(s, Step(s, a), w, c);
  }

  /** In every run: a token that nobody waits under can be awaited, and the waiter is then listed and selecting. */
  lemma FreeTokenCanBeAwaited(run: seq<Action>, token: string, tunnel: string)
    requires Legal(INIT, run) && token !in Exec(INIT, run).desk.waiting
    ensures var w := |Exec(INIT, run).waiters|;
            exists u :: && Reaches(Exec(INIT, run), u) && w < |u.waiters| && w < |u.desk.slots| && Listed(u, w) && u.waiters[w].token == token
                        && u.waiters[w].pc.Selecting? && u.desk.slots[w].tunnel == tunnel
  {
    hide Reaches, Legal, Exec;
    RunKeepsInv(INIT, run);
    var s, w := Exec(INIT, run), |Exec(INIT, run).waiters|;
    ReachSelf(s);
    ReachThen(s, s, Await(token, tunnel));
    var s1 := Step(s, Await(token, tunnel));
    ReachThen(s, s1, OpenOk(w));
    var u := Step(s1, OpenOk(w));
    assert Listed(u, w);
  }
}
