/**
 429 marks (internal/acme/transport.go, chain.go, lazy.go): every rate-limit answer writes a fresh mark
 before and after it resyncs the bucket, and an order reads the mark before it prepays. Comparing the
 marks later tells an order whether the units it prepaid are older than a resync.
 */
module RateMark {
  import opened Basics
  import opened TokenBucket
  import opened Budget
  import opened BudgetLedger
  import opened Track
  import Chain

  const SETTLE_TIMEOUT: int := 5 * SECOND
  const MINUTE: int := 60 * SECOND

  /** The longest an attempt lives after it prepaid, settling included. */
  function AttemptSpan(maxAttempt: int, grace: int): int {
    maxAttempt + grace + SETTLE_TIMEOUT
  }

  /** How long a mark lives: an attempt's span, and a minute for the time between reading the mark and prepaying. */
  function LimitedMarkTTL(span: int): int {
    span + MINUTE
  }

  /** An attempt's span, and the bound on the difference of readings and server time. */
  datatype Config = Config(span: int, skew: Skew)

  datatype Pc = Starting | Running | Checked(allowed: bool, marks: nat) | Settled

  /**
   An order: the number of marks written when it read the mark and when that was, the number of resyncs
   done when it prepaid and when that was, and what its last look at the wait state found.
   */
  datatype Order = Order(track: Track, seen: nat, readAt: int, epoch: nat, since: int, look: Option<Look>, pc: Pc)

  datatype Look = Look(mark: string, known: bool, marks: nat)

  /** A prepaid unit used by an order, and how many marks were written when the wait state was read for it. */
  datatype Use = Use(i: nat, marks: nat)

  /**
   `marks` lists every mark ever written, `until` is when the last one expires. `closes[r]` is None until
   the closing mark of resync r is written, then the number of marks written before it. `dates` is the
   instant the last resync of a bucket dated it to.
   */
  datatype Sys = Sys(time: int, levels: Levels, marks: seq<string>, until: int, closes: seq<Option<nat>>, dates: map<string, int>,
                     orders: seq<Order>, used: seq<Use>, credited: seq<nat>)

  datatype Action =
    | ReadMark(at: int)                                   // CAWaitState, before PrepayACME
    | Prepaid(i: nat, b: Bucket, n: int, clock: Clock)       // PrepayACME and setPrepaid
    | LookUp(i: nat, known: bool, at: int)                // CAWaitState, before a request
    | UseUnit(i: nat)                                     // dropPrepaid and usePrepaid
    | CheckMark(i: nat, at: int)                          // CAWaitState, in refund
    | Credit(i: nat, b: Bucket, clock: Clock)                // RefundACME
    | OpenMark(mark: string, at: int)                     // MarkCALimited before the resync
    | Resync(bs: seq<Bucket>, retryAfter: int, clock: Clock) // ResyncACME
    | CloseMark(r: nat, mark: string, at: int)            // MarkCALimited after the resync
    | Spend(bs: seq<Bucket>, clock: Clock)                   // TakeACME, of any request
    | Commit(b: Bucket, clock: Clock)                        // CommitACME, of any order

  const INIT := Sys(0, map[], [], 0, [], map[], [], [], [])

  function CurrentMark(s: Sys, at: int): string {
    if s.marks != [] && at < s.until then s.marks[|s.marks| - 1] else ""
  }

  predicate Fresh(s: Sys, mark: string) {
    mark != "" && mark !in s.marks
  }

  predicate Usable(bs: seq<Bucket>) {
    forall i :: 0 <= i < |bs| ==> bs[i].refill >= 0
  }

  ghost predicate Enabled(cfg: Config, s: Sys, a: Action) {
    match a
    case ReadMark(at) => at >= s.time
    case Prepaid(i, b, n, at) =>
      SectionAt(s.time, cfg.skew, at) && Usable([b]) && i < |s.orders| && s.orders[i].pc.Starting? && at.write < s.orders[i].readAt + MINUTE
    case LookUp(i, known, at) => at >= s.time && i < |s.orders| && s.orders[i].pc.Running? && at <= s.orders[i].since + cfg.span
    case UseUnit(i) => i < |s.orders| && s.orders[i].pc.Running? && s.orders[i].look.Some?
    case CheckMark(i, at) => at >= s.time && i < |s.orders| && s.orders[i].pc.Running? && at <= s.orders[i].since + cfg.span
    case Credit(i, b, at) =>
      && SectionAt(s.time, cfg.skew, at) && Usable([b]) && i < |s.orders| && s.orders[i].pc.Checked? && s.orders[i].pc.allowed
      && b.key == s.orders[i].track.prepaidKey
    case OpenMark(mark, at) => at >= s.time && Fresh(s, mark)
    case Resync(bs, d, at) => SectionAt(s.time, cfg.skew, at) && Usable(bs)
    case CloseMark(r, mark, at) => at >= s.time && Fresh(s, mark) && r < |s.closes| && s.closes[r].None?
    case Spend(bs, at) => SectionAt(s.time, cfg.skew, at) && Usable(bs)
    case Commit(b, at) => SectionAt(s.time, cfg.skew, at) && Usable([b])
  }

  /** The instants a resync dates its buckets to, as stored. */
  function Dated(dates: map<string, int>, bs: seq<Bucket>, retryAfter: int, now: int): map<string, int> {
    if bs == [] then dates
    else
      var last := bs[|bs| - 1];
      Dated(dates, bs[..|bs| - 1], retryAfter, now)[last.key := FloorMs(now + retryAfter - last.refill)]
  }

  ghost function Step(cfg: Config, s: Sys, a: Action): Sys
    requires Enabled(cfg, s, a)
  {
    match a
    case ReadMark(at) =>
      s.(time := at, orders := s.orders +
        [Order(FRESH.(prepaidMark := CurrentMark(s, at)), |s.marks|, at, 0, at, None, Starting)])
    case Prepaid(i, b, n, at) =>
      var o := s.orders[i];
      var r := Prepay(s.levels, b, n, at.now, at.read, at.write);
      s.(time := at.write, levels := r.2,
         orders := s.orders[i := o.(track := SetPrepaid(o.track, b.key, r.0, o.track.prepaidMark), epoch := |s.closes|, since := at.write, pc := Running)])
    case LookUp(i, known, at) =>
      s.(time := at, orders := s.orders[i := s.orders[i].(look := Some(Look(CurrentMark(s, at), known, |s.marks|)))])
    case UseUnit(i) =>
      var o := s.orders[i];
      var t := DropPrepaid(o.track, o.look.value.mark, o.look.value.known).1;
      var (paid, t') := UsePrepaid(t);
      s.(orders := s.orders[i := o.(track := t')], used := if paid then s.used + [Use(i, o.look.value.marks)] else s.used)
    case CheckMark(i, at) =>
      var o := s.orders[i];
      s.(time := at, orders := s.orders[i := o.(pc := Checked(Chain.MayRefund(CurrentMark(s, at), true, o.track.prepaidMark), |s.marks|))])
    case Credit(i, b, at) =>
      var o := s.orders[i];
      s.(time := at.write, levels := Refund(s.levels, b, o.track.prepaid, at.now, at.read, at.write),
         orders := s.orders[i := o.(track := DrainPrepaid(o.track).1)], credited := s.credited + [i])
    case OpenMark(mark, at) => s.(time := at, marks := s.marks + [mark], until := at + LimitedMarkTTL(cfg.span))
    case Resync(bs, d, at) => s.(time := at.write, levels := ResyncAll(s.levels, bs, d, at.now, at.write), closes := s.closes + [None],
                             dates := Dated(s.dates, bs, d, at.now))
    case CloseMark(r, mark, at) =>
      s.(time := at, marks := s.marks + [mark], until := at + LimitedMarkTTL(cfg.span), closes := s.closes[r := Some(|s.marks|)])
    case Spend(bs, at) => s.(time := at.write, levels := Take(s.levels, bs, at.now, at.read, at.write).1)
    case Commit(b, at) => s.(time := at.write, levels := Budget.Commit(s.levels, b, at.now, at.read, at.write))
  }

  ghost predicate Legal(cfg: Config, s: Sys, run: seq<Action>)
    decreases |run|
  {
    run == [] || (Enabled(cfg, s, run[0]) && Legal(cfg, Step(cfg, s, run[0]), run[1..]))
  }

  ghost function Exec(cfg: Config, s: Sys, run: seq<Action>): Sys
    requires Legal(cfg, s, run)
    decreases |run|
  {
    if run == [] then s else Exec(cfg, Step(cfg, s, run[0]), run[1..])
  }

  // ----- the invariant -----

  ghost predicate Distinct(marks: seq<string>) {
    && (forall i :: 0 <= i < |marks| ==> marks[i] != "")
    && (forall i, j :: 0 <= i < j < |marks| ==> marks[i] != marks[j])
  }

  /** The mark an order carries is the last one written when it read it, or empty if that had expired. */
  ghost predicate Carries(cfg: Config, s: Sys, o: Order) {
    && o.seen <= |s.marks| && o.readAt <= s.time
    && (o.track.prepaidMark == "" || (o.seen > 0 && o.track.prepaidMark == s.marks[o.seen - 1]))
    && (o.track.prepaidMark == "" && |s.marks| == o.seen && s.marks != [] ==> s.until <= o.readAt)
    && (|s.marks| > o.seen ==> s.until >= o.readAt + LimitedMarkTTL(cfg.span))
    && (!o.pc.Starting? ==> o.since < o.readAt + MINUTE && o.epoch <= |s.closes|)
  }

  /** A resync done after the order prepaid closes with a mark written after the order read its own. */
  ghost predicate Closed(s: Sys, o: Order) {
    forall r :: 0 <= r < |s.closes| && s.closes[r].Some? && !o.pc.Starting? && r >= o.epoch ==> s.closes[r].value >= o.seen
  }

  /** Both comparisons find the order's mark current exactly when no mark was written since it read it. */
  ghost predicate Compared(o: Order) {
    && (o.pc.Checked? ==> (o.pc.allowed <==> o.pc.marks == o.seen))
    && (o.look.Some? && o.look.value.known ==>
          (Chain.MayRefund(o.look.value.mark, true, o.track.prepaidMark) <==> o.look.value.marks == o.seen))
  }

  ghost predicate ClosesKnown(s: Sys) {
    forall r :: 0 <= r < |s.closes| && s.closes[r].Some? ==> s.closes[r].value < |s.marks|
  }

  ghost predicate Inv(cfg: Config, s: Sys) {
    && Distinct(s.marks)
    && ClosesKnown(s)
    && (forall i :: 0 <= i < |s.orders| ==> OrderInv(cfg, s, s.orders[i]))
    && (forall j :: 0 <= j < |s.used| ==> s.used[j].i < |s.orders| && !s.orders[s.used[j].i].pc.Starting? && s.used[j].marks == s.orders[s.used[j].i].seen)
    && (forall j :: 0 <= j < |s.credited| ==>
          s.credited[j] < |s.orders| && s.orders[s.credited[j]].pc.Checked? && s.orders[s.credited[j]].pc.allowed)
  }

  /** The heart of it: within the order's life, the current mark looks like its own only if no mark was written since. */
  lemma ComparisonIsExact(cfg: Config, s: Sys, o: Order, at: int)
    requires Distinct(s.marks) && Carries(cfg, s, o) && !o.pc.Starting?
    requires s.time <= at <= o.since + cfg.span
    ensures Chain.MayRefund(CurrentMark(s, at), true, o.track.prepaidMark) <==> |s.marks| == o.seen
  {
  }

  ghost predicate OrderInv(cfg: Config, s: Sys, o: Order) {
    Carries(cfg, s, o) && Closed(s, o) && Compared(o)
  }

  /** What a step that writes no mark leaves of the marks. */
  ghost predicate SameMarks(s: Sys, t: Sys) {
    t.marks == s.marks && t.until == s.until && t.closes == s.closes && t.time >= s.time
  }

  predicate OnOrder(a: Action) {
    a.Prepaid? || a.LookUp? || a.UseUnit? || a.CheckMark? || a.Credit?
  }

  lemma SameMarksKeepOrder(cfg: Config, s: Sys, t: Sys, o: Order)
    requires SameMarks(s, t) && OrderInv(cfg, s, o)
    ensures OrderInv(cfg, t, o)
  {
  }

  lemma OrderStepFrame(cfg: Config, s: Sys, a: Action, i: nat)
    requires Enabled(cfg, s, a) && i < |s.orders|
    ensures var t := Step(cfg, s, a);
            && i < |t.orders|
            && (OnOrder(a) || a.Spend? || a.Commit? || a.ReadMark? ==> SameMarks(s, t))
            && (!(OnOrder(a) && a.i == i) ==> t.orders[i] == s.orders[i])
  {
    hide Prepay, Refund, ResyncAll, Take, Budget.Commit, Dated, Fresh;
  }

  lemma MarkKeepsOrder(cfg: Config, s: Sys, a: Action, o: Order)
    requires Enabled(cfg, s, a) && Distinct(s.marks) && ClosesKnown(s) && OrderInv(cfg, s, o)
    requires a.OpenMark? || a.CloseMark? || a.Resync?
    ensures OrderInv(cfg, Step(cfg, s, a), o)
  {
    hide ResyncAll, Dated, Fresh, Compared;
  }

  lemma PrepaidKeepsOrder(cfg: Config, s: Sys, a: Action)
    requires Enabled(cfg, s, a) && a.Prepaid? && ClosesKnown(s) && OrderInv(cfg, s, s.orders[a.i])
    ensures OrderInv(cfg, Step(cfg, s, a), Step(cfg, s, a).orders[a.i])
  {
    hide Prepay;
  }

  lemma OwnKeepsOrder(cfg: Config, s: Sys, a: Action)
    requires Enabled(cfg, s, a) && OnOrder(a) && !a.Prepaid? && Distinct(s.marks) && OrderInv(cfg, s, s.orders[a.i])
    ensures OrderInv(cfg, Step(cfg, s, a), Step(cfg, s, a).orders[a.i])
  {
    hide Refund;
    if a.LookUp? || a.CheckMark? {
      ComparisonIsExact(cfg, s, s.orders[a.i], a.at);
    }
  }

  lemma StepKeepsOrder(cfg: Config, s: Sys, a: Action, i: nat)
    requires Enabled(cfg, s, a) && i < |s.orders| && Distinct(s.marks) && ClosesKnown(s) && OrderInv(cfg, s, s.orders[i])
    ensures OrderInv(cfg, Step(cfg, s, a), Step(cfg, s, a).orders[i])
  {
    hide OrderInv, Step, Enabled, Distinct, ClosesKnown, SameMarks;
    OrderStepFrame(cfg, s, a, i);
    if OnOrder(a) && a.i == i {
      if a.Prepaid? {
        PrepaidKeepsOrder(cfg, s, a);
      } else {
        OwnKeepsOrder(cfg, s, a);
      }
    } else if a.OpenMark? || a.CloseMark? || a.Resync? {
      MarkKeepsOrder(cfg, s, a, s.orders[i]);
    } else {
      SameMarksKeepOrder(cfg, s, Step(cfg, s, a), s.orders[i]);
    }
  }

  lemma StepKeepsInv(cfg: Config, s: Sys, a: Action)
    requires Inv(cfg, s) && Enabled(cfg, s, a)
    ensures Inv(cfg, Step(cfg, s, a))
  {
    hide Prepay, Refund, ResyncAll, Take, Budget.Commit, Dated;
    var s' := Step(cfg, s, a);
    forall i | 0 <= i < |s'.orders|
      ensures OrderInv(cfg, s', s'.orders[i])
    {
      if i < |s.orders| {
        assert OrderInv(cfg, s, s.orders[i]);
        StepKeepsOrder(cfg, s, a, i);
      }
    }
    if a.UseUnit? {
      assert OrderInv(cfg, s, s.orders[a.i]);
    }
  }

  lemma {:induction false} RunKeepsInv(cfg: Config, s: Sys, run: seq<Action>)
    requires Inv(cfg, s) && Legal(cfg, s, run)
    ensures Inv(cfg, Exec(cfg, s, run))
    decreases |run|
  {
    if run != [] {
      StepKeepsInv(cfg, s, run[0]);
      RunKeepsInv(cfg, Step(cfg, s, run[0]), run[1..]);
    }
  }

  // ----- the theorems -----

  /** The closing mark of resync r was written, and before the first `marks` marks were all that had been. */
  predicate ClosedBefore(s: Sys, r: nat, marks: nat) {
    r < |s.closes| && s.closes[r].Some? && s.closes[r].value < marks
  }

  lemma CreditsPrecedeClosing(cfg: Config, s: Sys, j: nat, r: nat)
    requires Inv(cfg, s) && j < |s.credited| && r >= s.orders[s.credited[j]].epoch
    ensures !ClosedBefore(s, r, s.orders[s.credited[j]].pc.marks)
  {
    var o := s.orders[s.credited[j]];
    assert OrderInv(cfg, s, o);
  }

  lemma UsesPrecedeClosing(cfg: Config, s: Sys, j: nat, r: nat)
    requires Inv(cfg, s) && j < |s.used| && r >= s.orders[s.used[j].i].epoch
    ensures !ClosedBefore(s, r, s.used[j].marks)
  {
    assert OrderInv(cfg, s, s.orders[s.used[j].i]);
  }

  /**
   No unit prepaid before resync r was refunded on a check made after r's closing mark, nor used by a
   request that read the wait state after it.
   */
  ghost predicate Protects(s: Sys, r: nat) {
    && (forall j :: 0 <= j < |s.credited| ==>
          && s.credited[j] < |s.orders| && s.orders[s.credited[j]].pc.Checked?
          && (r >= s.orders[s.credited[j]].epoch ==> !ClosedBefore(s, r, s.orders[s.credited[j]].pc.marks)))
    && (forall j :: 0 <= j < |s.used| ==>
          && s.used[j].i < |s.orders|
          && (r >= s.orders[s.used[j].i].epoch ==> !ClosedBefore(s, r, s.used[j].marks)))
  }

  lemma InvProtects(cfg: Config, s: Sys, r: nat)
    requires Inv(cfg, s)
    ensures Protects(s, r)
  {
    forall j | 0 <= j < |s.credited| && r >= s.orders[s.credited[j]].epoch
      ensures !ClosedBefore(s, r, s.orders[s.credited[j]].pc.marks)
    {
      CreditsPrecedeClosing(cfg, s, j, r);
    }
    forall j | 0 <= j < |s.used| && r >= s.orders[s.used[j].i].epoch
      ensures !ClosedBefore(s, r, s.used[j].marks)
    {
      UsesPrecedeClosing(cfg, s, j, r);
    }
  }

  /** In every run, with the marks alive as long as the code keeps them, the marks protect every resync. */
  lemma MarksProtectTheResync(maxAttempt: int, grace: int, skew: Skew, run: seq<Action>, r: nat)
    requires Legal(Config(AttemptSpan(maxAttempt, grace), skew), INIT, run)
    ensures Protects(Exec(Config(AttemptSpan(maxAttempt, grace), skew), INIT, run), r)
  {
    var cfg := Config(AttemptSpan(maxAttempt, grace), skew);
    RunKeepsInv(cfg, INIT, run);
    InvProtects(cfg, Exec(cfg, INIT, run), r);
  }

  /** An order's refund is allowed exactly when no mark at all was written between its reading and its check. */
  lemma RefundAllowedExactly(maxAttempt: int, grace: int, skew: Skew, run: seq<Action>, i: nat)
    requires var cfg := Config(AttemptSpan(maxAttempt, grace), skew);
             Legal(cfg, INIT, run) && i < |Exec(cfg, INIT, run).orders| && Exec(cfg, INIT, run).orders[i].pc.Checked?
    ensures var o := Exec(Config(AttemptSpan(maxAttempt, grace), skew), INIT, run).orders[i]; o.pc.allowed <==> o.pc.marks == o.seen
  {
    var cfg := Config(AttemptSpan(maxAttempt, grace), skew);
    RunKeepsInv(cfg, INIT, run);
    assert OrderInv(cfg, Exec(cfg, INIT, run), Exec(cfg, INIT, run).orders[i]);
  }

  /**
   What a request finds of its order's prepaid units: they are kept, and one of them pays for the request, exactly when the
   wait state was known and no mark was written between the order's reading of the mark and the look before the request.
   Otherwise they are all given up.
   */
  lemma UnitsAreKeptExactly(maxAttempt: int, grace: int, skew: Skew, run: seq<Action>, i: nat)
    requires var cfg := Config(AttemptSpan(maxAttempt, grace), skew);
             Legal(cfg, INIT, run) && Enabled(cfg, Exec(cfg, INIT, run), UseUnit(i))
    ensures var cfg := Config(AttemptSpan(maxAttempt, grace), skew);
            var s := Exec(cfg, INIT, run);
            var o, t := s.orders[i], Step(cfg, s, UseUnit(i));
            var kept := o.look.value.known && o.look.value.marks == o.seen;
            && t.orders[i].track.prepaid == (if kept && o.track.prepaid > 0 then o.track.prepaid - 1 else 0)
            && |t.used| == |s.used| + (if kept && o.track.prepaid > 0 then 1 else 0)
  {
    var cfg := Config(AttemptSpan(maxAttempt, grace), skew);
    RunKeepsInv(cfg, INIT, run);
    assert OrderInv(cfg, Exec(cfg, INIT, run), Exec(cfg, INIT, run).orders[i]);
  }

  /** A mark has been written since the order read its own. */
  ghost predicate Outdated(s: Sys, i: nat) {
    i < |s.orders| && s.orders[i].seen < |s.marks|
  }

  lemma StepKeepsOutdated(cfg: Config, s: Sys, a: Action, i: nat)
    requires Enabled(cfg, s, a) && Outdated(s, i)
    ensures Outdated(Step(cfg, s, a), i)
  {
    hide Prepay, Refund, ResyncAll, Take, Budget.Commit, Dated, Fresh;
  }

  lemma {:induction false} RunKeepsOutdated(cfg: Config, s: Sys, run: seq<Action>, i: nat)
    requires Legal(cfg, s, run) && Outdated(s, i)
    ensures Outdated(Exec(cfg, s, run), i)
    decreases |run|
  {
    hide Outdated, Enabled, Step;
    if run != [] {
      StepKeepsOutdated(cfg, s, run[0], i);
      RunKeepsOutdated(cfg, Step(cfg, s, run[0]), run[1..], i);
    }
  }

  /**
   Both marks of a rate-limit answer, the one before its resync as well as the one after it: an order that read the mark
   before may not refund any more from then on, and a request of the order that looks from then on gives all its units up.
   */
  lemma AnyMarkStopsTheUnits(maxAttempt: int, grace: int, skew: Skew, run: seq<Action>, m: Action, later: seq<Action>, a: Action)
    requires (m.OpenMark? || m.CloseMark?) && (a.CheckMark? || (a.LookUp? && a.known))
    requires var cfg := Config(AttemptSpan(maxAttempt, grace), skew);
             && Legal(cfg, INIT, run) && a.i < |Exec(cfg, INIT, run).orders| && Enabled(cfg, Exec(cfg, INIT, run), m)
             && Legal(cfg, Step(cfg, Exec(cfg, INIT, run), m), later) && Enabled(cfg, Exec(cfg, Step(cfg, Exec(cfg, INIT, run), m), later), a)
    ensures var cfg := Config(AttemptSpan(maxAttempt, grace), skew);
            var t := Step(cfg, Exec(cfg, Step(cfg, Exec(cfg, INIT, run), m), later), a);
            && (a.CheckMark? ==> t.orders[a.i].pc.Checked? && !t.orders[a.i].pc.allowed)
            && (a.LookUp? ==> t.orders[a.i].look.Some? && DropPrepaid(t.orders[a.i].track, t.orders[a.i].look.value.mark, true).1.prepaid == 0)
  {
    hide Legal, Exec;
    var cfg := Config(AttemptSpan(maxAttempt, grace), skew);
    var s := Exec(cfg, INIT, run);
    RunKeepsInv(cfg, INIT, run);
    MarkOutdates(cfg, s, m, a.i);
    StepKeepsInv(cfg, s, m);
    RunKeepsInv(cfg, Step(cfg, s, m), later);
    RunKeepsOutdated(cfg, Step(cfg, s, m), later, a.i);
    var u := Exec(cfg, Step(cfg, s, m), later);
    assert OrderInv(cfg, u, u.orders[a.i]);
    ComparisonIsExact(cfg, u, u.orders[a.i], a.at);
  }

  lemma MarkOutdates(cfg: Config, s: Sys, m: Action, i: nat)
    requires Inv(cfg, s) && Enabled(cfg, s, m) && (m.OpenMark? || m.CloseMark?) && i < |s.orders|
    ensures Outdated(Step(cfg, s, m), i)
  {
    assert OrderInv(cfg, s, s.orders[i]);
  }

  ghost predicate Emptied(s: Sys, i: nat) {
    i < |s.orders| && !s.orders[i].pc.Starting? && s.orders[i].track.prepaid == 0
  }

  lemma StepKeepsEmptied(cfg: Config, s: Sys, a: Action, i: nat)
    requires Enabled(cfg, s, a) && Emptied(s, i)
    ensures Emptied(Step(cfg, s, a), i)
  {
    hide Prepay, Refund, ResyncAll, Take, Budget.Commit, Dated;
  }

  lemma {:induction false} RunKeepsEmptied(cfg: Config, s: Sys, run: seq<Action>, i: nat)
    requires Legal(cfg, s, run) && Emptied(s, i)
    ensures Emptied(Exec(cfg, s, run), i)
    decreases |run|
  {
    hide Emptied, Enabled, Step;
    if run != [] {
      StepKeepsEmptied(cfg, s, run[0], i);
      RunKeepsEmptied(cfg, Step(cfg, s, run[0]), run[1..], i);
    }
  }

  /** No unit is credited twice: after an order's units were credited, whatever follows, a further credit of the order changes no level. */
  lemma UnitsAreCreditedOnce(cfg: Config, run: seq<Action>, a: Action, later: seq<Action>, again: Action)
    requires Legal(cfg, INIT, run) && a.Credit? && Enabled(cfg, Exec(cfg, INIT, run), a) && Legal(cfg, Step(cfg, Exec(cfg, INIT, run), a), later)
    requires again.Credit? && again.i == a.i && Enabled(cfg, Exec(cfg, Step(cfg, Exec(cfg, INIT, run), a), later), again)
    ensures var s := Exec(cfg, Step(cfg, Exec(cfg, INIT, run), a), later); Step(cfg, s, again).levels == s.levels
  {
    RunKeepsEmptied(cfg, Step(cfg, Exec(cfg, INIT, run), a), later, a.i);
  }

  // ----- the frozen bucket -----

  /** A bucket is dated no earlier than its last resync dated it, and its key outlives that date on every clock. */
  ghost predicate KeepsDate(skew: Skew, levels: Levels, dates: map<string, int>, k: string) {
    k in dates ==>
      && k in levels && levels[k].at >= dates[k] && dates[k] == FloorMs(dates[k])
      && levels[k].expires + skew.low > levels[k].at
  }

  ghost predicate KeepsDates(skew: Skew, levels: Levels, dates: map<string, int>) {
    forall k :: KeepsDate(skew, levels, dates, k)
  }

  lemma StoredOutlives(b: Bucket, level: Level, now: int, server: int, skew: Skew)
    requires b.refill >= 0 && skew.WithinMargin() && skew.Reads(server, now)
    ensures Stored(b, level, now, server).expires + skew.low > Stored(b, level, now, server).at
  {
    var missing := b.capacity - Min(level.tokens, b.capacity);
    assert TimeFor(b, missing) >= 0.0;
    TruncateBounds(TimeFor(b, missing));
  }

  /** A reader finds the bucket dated no earlier than its date, or reads no earlier itself. */
  lemma ViewIsDated(skew: Skew, levels: Levels, dates: map<string, int>, b: Bucket, read: int, now: int)
    requires KeepsDate(skew, levels, dates, b.key) && b.key in dates && skew.Reads(read, now)
    ensures var v := View(levels, b, read, now); v.at >= dates[b.key] && (now < dates[b.key] ==> now < v.at)
  {
  }

  lemma WriteKeepsDate(skew: Skew, levels: Levels, dates: map<string, int>, b: Bucket, level: Level, at: Clock, k: string)
    requires skew.WithinMargin() && skew.Reads(at.write, at.now) && b.refill >= 0
    requires KeepsDate(skew, levels, dates, k) && (k == b.key && k in dates ==> level.at >= dates[k])
    ensures KeepsDate(skew, levels[b.key := Stored(b, level, at.now, at.write)], dates, k)
  {
    StoredOutlives(b, level, at.now, at.write, skew);
  }

  lemma SpendKeepsDate(skew: Skew, levels: Levels, dates: map<string, int>, b: Bucket, view: Level, n: real, at: Clock, k: string)
    requires skew.WithinMargin() && skew.Reads(at.write, at.now) && b.refill >= 0
    requires KeepsDate(skew, levels, dates, k) && (k == b.key && k in dates ==> view.at >= dates[k])
    ensures KeepsDate(skew, levels[b.key := Stored(b, SpendN(b, view, at.now, n), at.now, at.write)], dates, k)
  {
    WriteKeepsDate(skew, levels, dates, b, SpendN(b, view, at.now, n), at, k);
  }

  lemma {:induction false} SpendAllKeepsDates(skew: Skew, levels: Levels, dates: map<string, int>, bs: seq<Bucket>, vs: seq<Level>, at: Clock, k: string)
    requires skew.WithinMargin() && skew.Reads(at.write, at.now) && Usable(bs) && |vs| == |bs| && KeepsDate(skew, levels, dates, k)
    requires forall i :: 0 <= i < |bs| && bs[i].key == k && k in dates ==> vs[i].at >= dates[k]
    ensures KeepsDate(skew, SpendAll(levels, bs, vs, at.now, at.write), dates, k)
  {
    if bs != [] {
      var last := |bs| - 1;
      SpendAllKeepsDates(skew, levels, dates, bs[..last], vs[..last], at, k);
      SpendKeepsDate(skew, SpendAll(levels, bs[..last], vs[..last], at.now, at.write), dates, bs[last], vs[last], 1.0, at, k);
    }
  }

  lemma ResyncOneKeepsDate(skew: Skew, levels: Levels, dates: map<string, int>, b: Bucket, d: int, at: Clock, k: string)
    requires skew.WithinMargin() && skew.Reads(at.write, at.now) && b.refill >= 0 && KeepsDate(skew, levels, dates, k)
    ensures KeepsDate(skew, levels[b.key := Stored(b, Resynced(b, at.now, d), at.now, at.write)], dates[b.key := FloorMs(at.now + d - b.refill)], k)
  {
    StoredOutlives(b, Resynced(b, at.now, d), at.now, at.write, skew);
  }

  lemma {:induction false} ResyncKeepsDates(skew: Skew, levels: Levels, dates: map<string, int>, bs: seq<Bucket>, d: int, at: Clock, k: string)
    requires skew.WithinMargin() && skew.Reads(at.write, at.now) && Usable(bs) && KeepsDate(skew, levels, dates, k)
    ensures KeepsDate(skew, ResyncAll(levels, bs, d, at.now, at.write), Dated(dates, bs, d, at.now), k)
  {
    hide KeepsDate, Stored, Resynced, FloorMs;
    if bs != [] {
      var last := |bs| - 1;
      ResyncKeepsDates(skew, levels, dates, bs[..last], d, at, k);
      ResyncOneKeepsDate(skew, ResyncAll(levels, bs[..last], d, at.now, at.write), Dated(dates, bs[..last], d, at.now), bs[last], d, at, k);
    }
  }

  lemma SectionKeepsDate(cfg: Config, s: Sys, a: Action, k: string)
    requires cfg.skew.WithinMargin() && Enabled(cfg, s, a) && KeepsDate(cfg.skew, s.levels, s.dates, k)
    requires a.Spend? || a.Commit? || a.Prepaid? || a.Credit?
    ensures KeepsDate(cfg.skew, Step(cfg, s, a).levels, s.dates, k)
  {
    var at, skew := a.clock, cfg.skew;
    if a.Spend? {
      var vs := Views(s.levels, a.bs, at.read, at.now);
      forall i | 0 <= i < |a.bs| && a.bs[i].key == k && k in s.dates
        ensures vs[i].at >= s.dates[k]
      {
        ViewIsDated(skew, s.levels, s.dates, a.bs[i], at.read, at.now);
      }
      SpendAllKeepsDates(skew, s.levels, s.dates, a.bs, vs, at, k);
    } else {
      var view := View(s.levels, a.b, at.read, at.now);
      assert [a.b][0] == a.b;
      if k == a.b.key && k in s.dates {
        ViewIsDated(skew, s.levels, s.dates, a.b, at.read, at.now);
      }
      BucketKeepsDate(cfg, s, a, view, k);
    }
  }

  lemma BucketKeepsDate(cfg: Config, s: Sys, a: Action, view: Level, k: string)
    requires cfg.skew.WithinMargin() && Enabled(cfg, s, a) && KeepsDate(cfg.skew, s.levels, s.dates, k)
    requires (a.Commit? || a.Prepaid? || a.Credit?) && view == View(s.levels, a.b, a.clock.read, a.clock.now) && a.b.refill >= 0
    requires k == a.b.key && k in s.dates ==> view.at >= s.dates[k]
    ensures KeepsDate(cfg.skew, Step(cfg, s, a).levels, s.dates, k)
  {
    var at, skew := a.clock, cfg.skew;
    match a
    case Commit(b, _) => SpendKeepsDate(skew, s.levels, s.dates, b, view, 1.0, at, k);
    case Prepaid(_, b, n, _) => SpendKeepsDate(skew, s.levels, s.dates, b, view, PrepayCount(b, n) as real, at, k);
    case Credit(i, b, _) =>
      if at.now >= view.at {
        var n := s.orders[i].track.prepaid as real;
        WriteKeepsDate(skew, s.levels, s.dates, b, Level(Min(b.capacity, TokensAt(b, view, at.now) + n), at.now), at, k);
      }
  }

  lemma StepKeepsDates(cfg: Config, s: Sys, a: Action)
    requires cfg.skew.WithinMargin() && Enabled(cfg, s, a) && KeepsDates(cfg.skew, s.levels, s.dates)
    ensures KeepsDates(cfg.skew, Step(cfg, s, a).levels, Step(cfg, s, a).dates)
  {
    hide KeepsDate, Take, Prepay, Refund, ResyncAll, Budget.Commit, Dated;
    var s' := Step(cfg, s, a);
    forall k
      ensures KeepsDate(cfg.skew, s'.levels, s'.dates, k)
    {
      assert KeepsDate(cfg.skew, s.levels, s.dates, k);
      if a.Resync? {
        ResyncKeepsDates(cfg.skew, s.levels, s.dates, a.bs, a.retryAfter, a.clock, k);
      } else if a.Spend? || a.Commit? || a.Prepaid? || a.Credit? {
        SectionKeepsDate(cfg, s, a, k);
      }
    }
  }

  lemma {:induction false} RunKeepsDates(cfg: Config, s: Sys, run: seq<Action>)
    requires cfg.skew.WithinMargin() && Legal(cfg, s, run) && KeepsDates(cfg.skew, s.levels, s.dates)
    ensures KeepsDates(cfg.skew, Exec(cfg, s, run).levels, Exec(cfg, s, run).dates)
    decreases |run|
  {
    if run != [] {
      StepKeepsDates(cfg, s, run[0]);
      RunKeepsDates(cfg, Step(cfg, s, run[0]), run[1..]);
    }
  }

  /**
   In every run, whatever takes, prepayments, commits, refunds and further resyncs came in between: a refund at any
   reading before the instant the bucket's last resync dated it to credits nothing.
   */
  lemma FrozenBucketTakesNoRefund(cfg: Config, run: seq<Action>, b: Bucket, n: int, at: Clock)
    requires cfg.skew.WithinMargin() && Legal(cfg, INIT, run)
    requires var s := Exec(cfg, INIT, run); SectionAt(s.time, cfg.skew, at) && b.key in s.dates && at.now < s.dates[b.key]
    ensures var s := Exec(cfg, INIT, run); Refund(s.levels, b, n, at.now, at.read, at.write) == s.levels
  {
    RunKeepsDates(cfg, INIT, run);
    var s := Exec(cfg, INIT, run);
    assert KeepsDate(cfg.skew, s.levels, s.dates, b.key);
    ViewIsDated(cfg.skew, s.levels, s.dates, b, at.read, at.now);
  }

  /**
   Both halves: a unit prepaid before resync r that a refund puts back into a resynced bucket was checked before r's
   closing mark, and credited no earlier than the bucket was dated to. Every other such unit is kept out, by the mark
   or by the date.
   */
  lemma CreditAfterResync(maxAttempt: int, grace: int, skew: Skew, run: seq<Action>, a: Action, r: nat)
    requires skew.WithinMargin() && a.Credit?
    requires var cfg := Config(AttemptSpan(maxAttempt, grace), skew);
             && Legal(cfg, INIT, run) && Enabled(cfg, Exec(cfg, INIT, run), a)
             && a.b.key in Exec(cfg, INIT, run).dates && r >= Exec(cfg, INIT, run).orders[a.i].epoch
             && Step(cfg, Exec(cfg, INIT, run), a).levels != Exec(cfg, INIT, run).levels
    ensures var s := Exec(Config(AttemptSpan(maxAttempt, grace), skew), INIT, run);
            !ClosedBefore(s, r, s.orders[a.i].pc.marks) && a.clock.now >= s.dates[a.b.key]
  {
    var cfg := Config(AttemptSpan(maxAttempt, grace), skew);
    var s := Exec(cfg, INIT, run);
    RunKeepsInv(cfg, INIT, run);
    assert OrderInv(cfg, s, s.orders[a.i]);
    if a.clock.now < s.dates[a.b.key] {
      FrozenBucketTakesNoRefund(cfg, run, a.b, s.orders[a.i].track.prepaid, a.clock);
    }
  }
}
