/**
 The request budget end to end: any number of orders, on any nodes, prepaying requests, using and
 returning prepaid units, charging the rest directly, draining and refunding, in any interleaving.
 Each action is one budget section or one step on a track.
 */
module RequestBudget {
  import opened TokenBucket
  import opened Budget
  import opened BudgetLedger
  import opened Track

  /** Where an order's goroutine stands with its current request, and which buckets that request draws on. */
  datatype Pc = Idle | Charging(bs: seq<Bucket>, paid: bool) | Ready(bs: seq<Bucket>, paid: bool)

  /** An order: its track, its goroutine, and the units its attempt has drained and not yet refunded. */
  datatype Order = Order(track: Track, pc: Pc, drained: nat)

  datatype Sys = Sys(server: int, levels: Levels, orders: seq<Order>, sent: seq<seq<Bucket>>, hist: map<string, Hist>)

  datatype Action =
    | Start(b: Bucket, n: int, mark: string, at: Clock)      // PrepayACME, then setPrepaid on a new track
    | Drop(i: nat, mark: string, known: bool)                // dropPrepaid
    | Use(i: nat, bs: seq<Bucket>)                           // usePrepaid for the next request
    | Charge(i: nat, at: Clock)                              // TakeACME on what the unit does not cover
    | Send(i: nat)                                           // the request goes to the CA
    | Unsend(i: nat)                                         // the attempt was abandoned: the request does not go
    | Drain(i: nat)                                          // drainPrepaid
    | Credit(i: nat, b: Bucket, at: Clock)                   // RefundACME of the drained units
    | Forfeit(i: nat)                                        // the drained units are not refunded

  const INIT := Sys(0, map[], [], [], map[])

  /** The buckets of a request that a prepaid unit does not cover. */
  function Without(bs: seq<Bucket>, k: string): (r: seq<Bucket>)
    ensures forall i :: 0 <= i < |r| ==> r[i] in bs && r[i].key != k
    ensures forall x :: x in bs && x.key != k ==> x in r
    ensures DistinctKeys(bs) ==> DistinctKeys(r)
  {
    if bs == [] then []
    else
      var rest := Without(bs[..|bs| - 1], k);
      if bs[|bs| - 1].key == k then rest else rest + [bs[|bs| - 1]]
  }

  function ToCharge(o: Order): seq<Bucket>
    requires o.pc.Charging?
  {
    if o.pc.paid then Without(o.pc.bs, o.track.prepaidKey) else o.pc.bs
  }

  function GiveBack(t: Track, paid: bool): Track {
    if paid then ReturnPrepaid(t) else t
  }

  // ----- the machine, for one bucket b whose budget is to be bounded -----

  ghost predicate Enabled(b: Bucket, skew: Skew, s: Sys, a: Action) {
    match a
    case Start(c, n, mark, at) => SectionAt(s.server, skew, at) && (c.key == b.key ==> c == b)
    case Drop(i, _, _) => i < |s.orders| && s.orders[i].pc.Idle?
    case Use(i, bs) => i < |s.orders| && s.orders[i].pc.Idle? && Consistent(b, bs)
    case Charge(i, at) => i < |s.orders| && s.orders[i].pc.Charging? && SectionAt(s.server, skew, at)
    case Send(i) => i < |s.orders| && s.orders[i].pc.Ready?
    case Unsend(i) => i < |s.orders| && s.orders[i].pc.Ready?
    case Drain(i) => i < |s.orders| && s.orders[i].drained == 0
    case Credit(i, c, at) => i < |s.orders| && SectionAt(s.server, skew, at) && c.key == s.orders[i].track.prepaidKey && (c.key == b.key ==> c == b)
    case Forfeit(i) => i < |s.orders|
  }

  ghost function Step(b: Bucket, skew: Skew, s: Sys, a: Action): Sys
    requires Enabled(b, skew, s, a)
  {
    match a
    case Start(c, n, mark, at) =>
      var r := Prepay(s.levels, c, n, at.now, at.read, at.write);
      if r.1 > 0 then s.(server := at.write)
      else s.(server := at.write, levels := r.2,
              orders := s.orders + [Order(SetPrepaid(FRESH, c.key, r.0, mark), Idle, 0)],
              hist := if r.0 > 0 then Note(s.hist, [c], at.now) else s.hist)
    case Drop(i, mark, known) =>
      var o := s.orders[i];
      s.(orders := s.orders[i := o.(track := DropPrepaid(o.track, mark, known).1)])
    case Use(i, bs) =>
      var o := s.orders[i];
      var (paid, t) := UsePrepaid(o.track);
      s.(orders := s.orders[i := o.(track := t, pc := Charging(bs, paid))])
    case Charge(i, at) =>
      var o := s.orders[i];
      var bs := ToCharge(o);
      var r := Take(s.levels, bs, at.now, at.read, at.write);
      if r.0 > 0 then s.(server := at.write, orders := s.orders[i := o.(track := GiveBack(o.track, o.pc.paid), pc := Idle)])
      else s.(server := at.write, levels := r.1, orders := s.orders[i := o.(pc := Ready(o.pc.bs, o.pc.paid))], hist := Note(s.hist, bs, at.now))
    case Send(i) =>
      var o := s.orders[i];
      s.(orders := s.orders[i := o.(pc := Idle)], sent := s.sent + [o.pc.bs])
    case Unsend(i) =>
      var o := s.orders[i];
      s.(orders := s.orders[i := o.(track := GiveBack(o.track, o.pc.paid), pc := Idle)])
    case Drain(i) =>
      var o := s.orders[i];
      var (n, t) := DrainPrepaid(o.track);
      s.(orders := s.orders[i := o.(track := t, drained := n)])
    case Credit(i, c, at) =>
      var o := s.orders[i];
      var levels := Refund(s.levels, c, o.drained, at.now, at.read, at.write);
      s.(server := at.write, levels := levels, orders := s.orders[i := o.(drained := 0)],
         hist := if levels == s.levels then s.hist else Note(s.hist, [c], at.now))
    case Forfeit(i) =>
      s.(orders := s.orders[i := s.orders[i].(drained := 0)])
  }

  ghost predicate Legal(b: Bucket, skew: Skew, s: Sys, run: seq<Action>)
    decreases |run|
  {
    run == [] || (Enabled(b, skew, s, run[0]) && Legal(b, skew, Step(b, skew, s, run[0]), run[1..]))
  }

  ghost function Exec(b: Bucket, skew: Skew, s: Sys, run: seq<Action>): Sys
    requires Legal(b, skew, s, run)
    decreases |run|
  {
    if run == [] then s else Exec(b, skew, Step(b, skew, s, run[0]), run[1..])
  }

  // ----- what is counted -----

  /** Units of key k an order holds: unused, drained and not refunded, or in the hand of its current request. */
  function Units(o: Order, k: string): nat {
    (if o.track.prepaidKey == k then o.track.prepaid + o.drained else 0) +
    (match o.pc
     case Idle => 0
     case Charging(_, paid) => if paid && o.track.prepaidKey == k then 1 else 0
     case Ready(bs, paid) => if HasKey(bs, k) || (paid && o.track.prepaidKey == k) then 1 else 0)
  }

  function Held(orders: seq<Order>, k: string): nat {
    if orders == [] then 0 else Held(orders[..|orders| - 1], k) + Units(orders[|orders| - 1], k)
  }

  /** Requests sent to the CA that draw on the bucket. */
  function SentOn(sent: seq<seq<Bucket>>, k: string): nat {
    if sent == [] then 0 else SentOn(sent[..|sent| - 1], k) + if HasKey(sent[|sent| - 1], k) then 1 else 0
  }

  function Used(s: Sys, k: string): nat {
    SentOn(s.sent, k) + Held(s.orders, k)
  }

  lemma {:induction false} HeldAfter(orders: seq<Order>, i: nat, o: Order, k: string)
    requires i < |orders|
    ensures Held(orders[i := o], k) == Held(orders, k) - Units(orders[i], k) + Units(o, k)
  {
    var last := |orders| - 1;
    if i == last {
      assert orders[i := o][..last] == orders[..last];
    } else {
      HeldAfter(orders[..last], i, o, k);
      assert orders[i := o][..last] == orders[..last][i := o];
    }
  }

  lemma HeldIncludes(orders: seq<Order>, i: nat, k: string)
    requires i < |orders|
    ensures Held(orders, k) >= Units(orders[i], k)
  {
    HeldAfter(orders, i, Order(FRESH, Idle, 0), k);
  }

  ghost predicate Inv(b: Bucket, skew: Skew, s: Sys)
    requires b.refill > 0
  {
    var k := b.key;
    && (k in s.levels <==> k in s.hist)
    && (k in s.levels ==> Ledger(b, skew, s.levels[k], s.hist[k], Used(s, k) as real))
    && (k !in s.levels ==> Used(s, k) == 0)
    && (forall i :: 0 <= i < |s.orders| && !s.orders[i].pc.Idle? ==> Consistent(b, s.orders[i].pc.bs))
  }

  // ----- every step keeps the invariant -----

  lemma StartKeepsInv(b: Bucket, skew: Skew, s: Sys, a: Action)
    requires b.refill > 0 && b.capacity >= 0.0 && skew.WithinMargin()
    requires a.Start? && Enabled(b, skew, s, a) && Inv(b, skew, s)
    ensures Inv(b, skew, Step(b, skew, s, a))
  {
    var k := b.key;
    var s' := Step(b, skew, s, a);
    var r := Prepay(s.levels, a.b, a.n, a.at.now, a.at.read, a.at.write);
    if r.1 == 0 {
      assert s'.orders[..|s.orders|] == s.orders;
      if a.b == b && r.0 > 0 {
        var n := r.0 as real;
        var v := View(s.levels, b, a.at.read, a.at.now);
        NoteAt(s.hist, [b], a.at.now, k);
        assert [b][0].key == k;
        TokensCapped(b, skew, s, v, a.at);
        MoveKeepsLedger(b, skew, Lookup(s.levels, k), Lookup(s.hist, k), Used(s, k) as real, a.at, SpendN(b, v, a.at.now, n), n);
      } else if r.0 > 0 {
        NoteAt(s.hist, [a.b], a.at.now, k);
      }
    }
  }

  lemma TokensCapped(b: Bucket, skew: Skew, s: Sys, v: Level, at: Clock)
    requires b.refill > 0 && b.capacity >= 0.0 && Inv(b, skew, s) && v == View(s.levels, b, at.read, at.now)
    ensures 0.0 <= TokensAt(b, v, at.now) <= b.capacity
  {
    if at.now >= v.at {
      RefilledMonotone(b, 0, at.now - v.at);
    }
  }

  /** A charged request holds one unit more on exactly the buckets the charge names. */
  lemma ChargedUnits(o: Order, k: string)
    requires o.pc.Charging?
    ensures Units(o.(pc := Ready(o.pc.bs, o.pc.paid)), k) == Units(o, k) + (if HasKey(ToCharge(o), k) then 1 else 0)
  {
    var bs, all := ToCharge(o), o.pc.bs;
    if HasKey(bs, k) {
      var j :| 0 <= j < |bs| && bs[j].key == k;
      assert bs[j] in all;
      var m :| 0 <= m < |all| && all[m] == bs[j];
      assert HasKey(all, k);
    } else if HasKey(all, k) {
      var j :| 0 <= j < |all| && all[j].key == k;
      assert all[j] in all;
    }
  }

  /** An admitted charge that names the bucket spends one of its tokens and keeps its ledger. */
  lemma TakeKeepsLedger(b: Bucket, skew: Skew, s: Sys, bs: seq<Bucket>, at: Clock)
    requires b.refill > 0 && b.capacity >= 0.0 && skew.WithinMargin()
    requires Inv(b, skew, s) && SectionAt(s.server, skew, at) && Consistent(b, bs)
    requires Take(s.levels, bs, at.now, at.read, at.write).0 <= 0
    ensures var levels := Take(s.levels, bs, at.now, at.read, at.write).1;
            var hist := Note(s.hist, bs, at.now);
            if HasKey(bs, b.key) then
              b.key in levels && b.key in hist && Ledger(b, skew, levels[b.key], hist[b.key], Used(s, b.key) as real + 1.0)
            else Lookup(levels, b.key) == Lookup(s.levels, b.key) && Lookup(hist, b.key) == Lookup(s.hist, b.key)
  {
    var k := b.key;
    var vs := Views(s.levels, bs, at.read, at.now);
    SpendAllAt(s.levels, bs, vs, at.now, at.write, k);
    NoteAt(s.hist, bs, at.now, k);
    if HasKey(bs, k) {
      var j :| 0 <= j < |bs| && bs[j].key == k;
      TokensCapped(b, skew, s, vs[j], at);
      MoveKeepsLedger(b, skew, Lookup(s.levels, k), Lookup(s.hist, k), Used(s, k) as real, at, SpendN(b, vs[j], at.now, 1.0), 1.0);
    }
  }

  lemma ChargeKeepsInv(b: Bucket, skew: Skew, s: Sys, a: Action)
    requires b.refill > 0 && b.capacity >= 0.0 && skew.WithinMargin()
    requires a.Charge? && Enabled(b, skew, s, a) && Inv(b, skew, s)
    ensures Inv(b, skew, Step(b, skew, s, a))
  {
    var o := s.orders[a.i];
    var s' := Step(b, skew, s, a);
    var bs := ToCharge(o);
    HeldAfter(s.orders, a.i, s'.orders[a.i], b.key);
    if Take(s.levels, bs, a.at.now, a.at.read, a.at.write).0 <= 0 {
      assert Consistent(b, bs);
      TakeKeepsLedger(b, skew, s, bs, a.at);
      ChargedUnits(o, b.key);
    }
  }

  lemma CreditElsewhere(b: Bucket, skew: Skew, s: Sys, a: Action)
    requires b.refill > 0 && a.Credit? && a.b != b && Enabled(b, skew, s, a) && Inv(b, skew, s)
    ensures Inv(b, skew, Step(b, skew, s, a))
  {
    HeldAfter(s.orders, a.i, Step(b, skew, s, a).orders[a.i], b.key);
    HeldIncludes(s.orders, a.i, b.key);
    NoteAt(s.hist, [a.b], a.at.now, b.key);
  }

  /** A refund that finds nothing to credit, or a bucket dated into the future, only forgets the units. */
  lemma CreditIdle(b: Bucket, skew: Skew, s: Sys, a: Action)
    requires b.refill > 0 && a.Credit? && a.b == b && Enabled(b, skew, s, a) && Inv(b, skew, s)
    requires s.orders[a.i].drained <= 0 || a.at.now < View(s.levels, b, a.at.read, a.at.now).at
    ensures Inv(b, skew, Step(b, skew, s, a))
  {
    var k := b.key;
    var s' := Step(b, skew, s, a);
    HeldAfter(s.orders, a.i, s'.orders[a.i], k);
    HeldIncludes(s.orders, a.i, k);
    NoteAt(s.hist, [b], a.at.now, k);
    if k in s.levels {
      LedgerIsMonotone(b, skew, s.levels[k], s.hist[k], Used(s, k) as real, Used(s', k) as real);
    }
  }

  lemma CreditMoves(b: Bucket, skew: Skew, s: Sys, a: Action)
    requires b.refill > 0 && b.capacity >= 0.0 && skew.WithinMargin()
    requires a.Credit? && a.b == b && Enabled(b, skew, s, a) && Inv(b, skew, s)
    requires s.orders[a.i].drained > 0 && a.at.now >= View(s.levels, b, a.at.read, a.at.now).at
    ensures Inv(b, skew, Step(b, skew, s, a))
  {
    var k, n := b.key, s.orders[a.i].drained as real;
    var s' := Step(b, skew, s, a);
    HeldAfter(s.orders, a.i, s'.orders[a.i], k);
    HeldIncludes(s.orders, a.i, k);
    NoteAt(s.hist, [b], a.at.now, k);
    assert [b][0].key == k;
    var v := View(s.levels, b, a.at.read, a.at.now);
    TokensCapped(b, skew, s, v, a.at);
    var level := Level(Min(b.capacity, TokensAt(b, v, a.at.now) + n), a.at.now);
    MoveKeepsLedger(b, skew, Lookup(s.levels, k), Lookup(s.hist, k), Used(s, k) as real, a.at, level, -n);
    if s'.levels == s.levels {
      LedgerIsMonotone(b, skew, s.levels[k], s.hist[k], Used(s, k) as real, Used(s', k) as real);
    }
  }

  lemma CreditKeepsInv(b: Bucket, skew: Skew, s: Sys, a: Action)
    requires b.refill > 0 && b.capacity >= 0.0 && skew.WithinMargin()
    requires a.Credit? && Enabled(b, skew, s, a) && Inv(b, skew, s)
    ensures Inv(b, skew, Step(b, skew, s, a))
  {
    if a.b != b {
      CreditElsewhere(b, skew, s, a);
    } else if s.orders[a.i].drained <= 0 || a.at.now < View(s.levels, b, a.at.read, a.at.now).at {
      CreditIdle(b, skew, s, a);
    } else {
      CreditMoves(b, skew, s, a);
    }
  }

  predicate IsLocal(a: Action) {
    a.Drop? || a.Use? || a.Send? || a.Unsend? || a.Drain? || a.Forfeit?
  }

  /** The units of a bucket that a step gives up: dropped, not refunded, or charged for a request that does not go. */
  ghost function GivenUp(s: Sys, a: Action, k: string): nat
    requires (IsLocal(a) || a.Credit?) ==> a.i < |s.orders|
    requires a.Send? || a.Unsend? ==> s.orders[a.i].pc.Ready?
  {
    if !(IsLocal(a) || a.Credit?) then 0
    else
      var o := s.orders[a.i];
      var own := o.track.prepaidKey == k;
      match a
      case Drop(_, mark, known) => if own then DropPrepaid(o.track, mark, known).0 else 0
      case Send(_) => if o.pc.paid && own && !HasKey(o.pc.bs, k) then 1 else 0
      case Unsend(_) => if HasKey(o.pc.bs, k) && !(o.pc.paid && own) then 1 else 0
      case Forfeit(_) => if own then o.drained else 0
      case Credit(_, c, at) => if own && at.now < View(s.levels, c, at.read, at.now).at then o.drained else 0
      case _ => 0
  }

  /** A step that touches no bucket moves units between what is set aside and what is sent, and loses only what it gives up. */
  lemma LocalStepUses(b: Bucket, skew: Skew, s: Sys, a: Action, k: string)
    requires IsLocal(a) && Enabled(b, skew, s, a)
    ensures Used(Step(b, skew, s, a), k) == Used(s, k) - GivenUp(s, a, k)
  {
    hide Units, GivenUp, DropPrepaid, UsePrepaid, DrainPrepaid, ReturnPrepaid;
    var s' := Step(b, skew, s, a);
    HeldAfter(s.orders, a.i, s'.orders[a.i], k);
    HeldIncludes(s.orders, a.i, k);
    UnitsMove(b, skew, s, a, k);
    if a.Send? {
      assert s'.sent[..|s.sent|] == s.sent;
    }
  }

  /** What a local step does to the units of its order: a request that goes takes its own with it. */
  lemma UnitsMove(b: Bucket, skew: Skew, s: Sys, a: Action, k: string)
    requires IsLocal(a) && Enabled(b, skew, s, a)
    ensures var o, o' := s.orders[a.i], Step(b, skew, s, a).orders[a.i];
            Units(o', k) + (if a.Send? && HasKey(o.pc.bs, k) then 1 else 0) + GivenUp(s, a, k) == Units(o, k)
  {
    hide HasKey;
  }

  lemma LocalStepLeaves(b: Bucket, skew: Skew, s: Sys, a: Action)
    requires IsLocal(a) && Enabled(b, skew, s, a)
    requires forall i :: 0 <= i < |s.orders| && !s.orders[i].pc.Idle? ==> Consistent(b, s.orders[i].pc.bs)
    ensures var s' := Step(b, skew, s, a);
            && s'.levels == s.levels && s'.hist == s.hist
            && forall i :: 0 <= i < |s'.orders| && !s'.orders[i].pc.Idle? ==> Consistent(b, s'.orders[i].pc.bs)
  {
  }

  lemma LocalStepKeepsInv(b: Bucket, skew: Skew, s: Sys, s': Sys, a: Action)
    requires b.refill > 0 && IsLocal(a) && Enabled(b, skew, s, a) && Inv(b, skew, s) && s' == Step(b, skew, s, a)
    ensures Inv(b, skew, s')
  {
    var k := b.key;
    LocalStepUses(b, skew, s, a, k);
    LocalStepLeaves(b, skew, s, a);
    if k in s.levels {
      LedgerIsMonotone(b, skew, s.levels[k], s.hist[k], Used(s, k) as real, Used(s', k) as real);
    }
  }

  lemma StepKeepsInv(b: Bucket, skew: Skew, s: Sys, a: Action)
    requires b.refill > 0 && b.capacity >= 0.0 && skew.WithinMargin()
    requires Enabled(b, skew, s, a) && Inv(b, skew, s)
    ensures Inv(b, skew, Step(b, skew, s, a))
  {
    match a
    case Start(_, _, _, _) => StartKeepsInv(b, skew, s, a);
    case Charge(_, _) => ChargeKeepsInv(b, skew, s, a);
    case Credit(_, _, _) => CreditKeepsInv(b, skew, s, a);
    case _ => LocalStepKeepsInv(b, skew, s, Step(b, skew, s, a), a);
  }

  lemma {:induction false} RunKeepsInv(b: Bucket, skew: Skew, s: Sys, run: seq<Action>)
    requires b.refill > 0 && b.capacity >= 0.0 && skew.WithinMargin()
    requires Legal(b, skew, s, run) && Inv(b, skew, s)
    ensures Inv(b, skew, Exec(b, skew, s, run))
    decreases |run|
  {
    if run != [] {
      StepKeepsInv(b, skew, s, run[0]);
      RunKeepsInv(b, skew, Step(b, skew, s, run[0]), run[1..]);
    }
  }

  lemma InitHolds(b: Bucket, skew: Skew)
    requires b.refill > 0
    ensures Inv(b, skew, INIT)
  {
  }

  lemma InvBounds(b: Bucket, skew: Skew, s: Sys)
    requires b.refill > 0 && Inv(b, skew, s)
    ensures if b.key in s.hist then Used(s, b.key) as real <= Allowance(b, s.hist[b.key], s.hist[b.key].latest) else Used(s, b.key) == 0
  {
    if b.key in s.hist {
      var e, h := s.levels[b.key], s.hist[b.key];
      RefilledMonotone(b, e.at - h.first, h.latest - h.first);
    }
  }

  /**
   In every run, the requests sent on a bucket plus the units set aside for it never exceed a full
   bucket plus what refills between the first and the latest reading that wrote it, plus one
   millisecond's refill per write for the cut of the stored instant.
   */
  lemma RequestsStayWithinBudget(b: Bucket, skew: Skew, run: seq<Action>)
    requires b.refill > 0 && b.capacity >= 0.0 && skew.WithinMargin()
    requires Legal(b, skew, INIT, run)
    ensures var s := Exec(b, skew, INIT, run);
            if b.key in s.hist then
              Used(s, b.key) as real <= Allowance(b, s.hist[b.key], s.hist[b.key].latest)
            else Used(s, b.key) == 0
  {
    hide Inv, Used, Allowance;
    InitHolds(b, skew);
    RunKeepsInv(b, skew, INIT, run);
    InvBounds(b, skew, Exec(b, skew, INIT, run));
  }

  // ----- no token is lost -----

  ghost function GivenUpIn(b: Bucket, skew: Skew, s: Sys, run: seq<Action>, k: string): nat
    requires Legal(b, skew, s, run)
    decreases |run|
  {
    if run == [] then 0 else GivenUp(s, run[0], k) + GivenUpIn(b, skew, Step(b, skew, s, run[0]), run[1..], k)
  }

  /** The bucket is short of its capacity by no more than was sent, is set aside, and was given up. */
  ghost predicate Backed(b: Bucket, s: Sys, lost: nat) {
    b.key in s.levels ==> s.levels[b.key].tokens >= b.capacity - Used(s, b.key) as real - lost as real
  }

  /** Time only adds tokens. */
  lemma TokensAtLeastStored(b: Bucket, skew: Skew, s: Sys, server: int, x: int)
    requires b.refill > 0 && b.capacity >= 0.0 && Inv(b, skew, s) && skew.Reads(server, x)
    ensures TokensAt(b, View(s.levels, b, server, x), x) >= if b.key in s.levels then s.levels[b.key].tokens else b.capacity
  {
    assert Refilled(b, 0) == 0.0;
    if b.key in s.levels {
      var e := s.levels[b.key];
      ForgettingIsUnobservable(b, e, skew, server, x, 0.0);
      if x >= e.at {
        RefilledMonotone(b, 0, x - e.at);
      }
    }
  }

  lemma StartKeepsBacked(b: Bucket, skew: Skew, s: Sys, a: Action, lost: nat)
    requires b.refill > 0 && b.capacity >= 0.0 && a.Start? && Enabled(b, skew, s, a) && Inv(b, skew, s) && Backed(b, s, lost)
    ensures Backed(b, Step(b, skew, s, a), lost)
  {
    var s' := Step(b, skew, s, a);
    TokensAtLeastStored(b, skew, s, a.at.read, a.at.now);
    var r := Prepay(s.levels, a.b, a.n, a.at.now, a.at.read, a.at.write);
    if r.1 == 0 {
      assert s'.orders[..|s.orders|] == s.orders;
    }
  }

  /** An admitted charge takes one token of a bucket that it names, and none of another. */
  lemma TakenTokens(levels: Levels, bs: seq<Bucket>, at: Clock, b: Bucket)
    requires Consistent(b, bs) && Take(levels, bs, at.now, at.read, at.write).0 <= 0
    ensures var after := Take(levels, bs, at.now, at.read, at.write).1;
            if HasKey(bs, b.key) then b.key in after && after[b.key].tokens == TokensAt(b, View(levels, b, at.read, at.now), at.now) - 1.0
            else Lookup(after, b.key) == Lookup(levels, b.key)
  {
    var vs := Views(levels, bs, at.read, at.now);
    SpendAllAt(levels, bs, vs, at.now, at.write, b.key);
    if HasKey(bs, b.key) {
      var j :| 0 <= j < |bs| && bs[j].key == b.key;
      assert bs[j] == b;
    }
  }

  lemma ChargeKeepsBacked(b: Bucket, skew: Skew, s: Sys, a: Action, lost: nat)
    requires b.refill > 0 && b.capacity >= 0.0 && a.Charge? && Enabled(b, skew, s, a) && Inv(b, skew, s) && Backed(b, s, lost)
    ensures Backed(b, Step(b, skew, s, a), lost)
  {
    hide Take, TokensAt, Ledger, Units, Parsed;
    var o, s' := s.orders[a.i], Step(b, skew, s, a);
    var bs, k := ToCharge(o), b.key;
    HeldAfter(s.orders, a.i, s'.orders[a.i], k);
    TokensAtLeastStored(b, skew, s, a.at.read, a.at.now);
    if Take(s.levels, bs, a.at.now, a.at.read, a.at.write).0 <= 0 {
      ChargedUnits(o, k);
      ToChargeIsConsistent(b, o);
      TakenTokens(s.levels, bs, a.at, b);
    } else {
      RefusedUnits(o, k);
    }
  }

  lemma ToChargeIsConsistent(b: Bucket, o: Order)
    requires o.pc.Charging? && Consistent(b, o.pc.bs)
    ensures Consistent(b, ToCharge(o))
  {
  }

  /** A refused charge gives the prepaid unit back to the track. */
  lemma RefusedUnits(o: Order, k: string)
    requires o.pc.Charging?
    ensures Units(o.(track := GiveBack(o.track, o.pc.paid), pc := Idle), k) == Units(o, k)
  {
  }

  /** A credited unit comes back, up to the capacity. */
  lemma CreditKeepsBacked(b: Bucket, skew: Skew, s: Sys, a: Action, lost: nat)
    requires b.refill > 0 && b.capacity >= 0.0 && a.Credit? && Enabled(b, skew, s, a) && Inv(b, skew, s) && Backed(b, s, lost)
    ensures Backed(b, Step(b, skew, s, a), lost + GivenUp(s, a, b.key))
  {
    HeldAfter(s.orders, a.i, Step(b, skew, s, a).orders[a.i], b.key);
    HeldIncludes(s.orders, a.i, b.key);
    TokensAtLeastStored(b, skew, s, a.at.read, a.at.now);
  }

  lemma StepKeepsBacked(b: Bucket, skew: Skew, s: Sys, a: Action, lost: nat)
    requires b.refill > 0 && b.capacity >= 0.0 && Enabled(b, skew, s, a) && Inv(b, skew, s) && Backed(b, s, lost)
    ensures Backed(b, Step(b, skew, s, a), lost + GivenUp(s, a, b.key))
  {
    hide Inv, Used;
    match a
    case Start(_, _, _, _) => StartKeepsBacked(b, skew, s, a, lost);
    case Charge(_, _) => ChargeKeepsBacked(b, skew, s, a, lost);
    case Credit(_, _, _) => CreditKeepsBacked(b, skew, s, a, lost);
    case _ => LocalStepUses(b, skew, s, a, b.key);
  }

  lemma {:induction false} RunKeepsBacked(b: Bucket, skew: Skew, s: Sys, run: seq<Action>, lost: nat)
    requires b.refill > 0 && b.capacity >= 0.0 && skew.WithinMargin() && Legal(b, skew, s, run) && Inv(b, skew, s) && Backed(b, s, lost)
    ensures Backed(b, Exec(b, skew, s, run), lost + GivenUpIn(b, skew, s, run, b.key))
    decreases |run|
  {
    hide Inv, Backed, Step;
    if run != [] {
      StepKeepsBacked(b, skew, s, run[0], lost);
      StepKeepsInv(b, skew, s, run[0]);
      RunKeepsBacked(b, skew, Step(b, skew, s, run[0]), run[1..], lost + GivenUp(s, run[0], b.key));
    }
  }

  /**
   The other side of the budget, in every run: whenever a node reads the bucket, it finds the capacity less the requests
   sent, the units set aside, and the units that were given up. No token is lost in any other way; a unit that is drained
   and credited is back.
   */
  lemma NoTokenIsLost(b: Bucket, skew: Skew, run: seq<Action>, server: int, x: int)
    requires b.refill > 0 && b.capacity >= 0.0 && skew.WithinMargin() && Legal(b, skew, INIT, run) && skew.Reads(server, x)
    ensures var s := Exec(b, skew, INIT, run);
            TokensAt(b, View(s.levels, b, server, x), x) >= b.capacity - Used(s, b.key) as real - GivenUpIn(b, skew, INIT, run, b.key) as real
  {
    hide Inv, Step, Enabled;
    InitHolds(b, skew);
    RunKeepsInv(b, skew, INIT, run);
    RunKeepsBacked(b, skew, INIT, run, 0);
    TokensAtLeastStored(b, skew, Exec(b, skew, INIT, run), server, x);
  }
}
