/**
 What an unchanged fingerprint means. The startup load has no guard against a torn read, but its fingerprint is taken
 before it; so a tick that finds the files as the baseline has them proves the live snapshot right, however it came
 about. A load that was torn is never taken for current.
 */
module BanBaseline {
  import opened Basics
  import opened BanWatch

  /** The baseline is the fingerprint from read j on, not before read `first`, and the live snapshot was built by later reads, from the k-th on. */
  ghost predicate BasedOn(cfg: Config, w: World, at: Instants, s: Watch, j: nat, k: nat, required: set<string>, first: nat, next: nat) {
    && first <= j && j + |Paths(cfg)| <= k && k + |cfg.files| < next
    && s.last == Some(PrintOf(Paths(cfg), w, at, j))
    && Build(cfg, SightFrom(cfg, w, at, k), required) == Some(s.live)
  }

  /** If there is a baseline, the live snapshot was built after it was taken and before read `next`. */
  ghost predicate Based(cfg: Config, w: World, at: Instants, s: Watch, first: nat, next: nat) {
    s.last.Some? ==> exists j, k, required :: BasedOn(cfg, w, at, s, j, k, required, first, next)
  }

  lemma BasedLater(cfg: Config, w: World, at: Instants, s: Watch, first: nat, next: nat, later: nat)
    requires Based(cfg, w, at, s, first, next) && next <= later
    ensures Based(cfg, w, at, s, first, later)
  {
    if s.last.Some? {
      var j, k, required :| BasedOn(cfg, w, at, s, j, k, required, first, next);
      assert BasedOn(cfg, w, at, s, j, k, required, first, later);
    }
  }

  lemma LoadIsBased(cfg: Config, w: World, at: Instants, s: Watch, k: nat)
    requires s.last.None?
    ensures var s' := Loaded(cfg, s, PrintOf(Paths(cfg), w, at, k), SightFrom(cfg, w, at, k + |Paths(cfg)|));
            Based(cfg, w, at, s', k, k + |Paths(cfg)| + |cfg.files| + 1)
  {
    var s' := Loaded(cfg, s, PrintOf(Paths(cfg), w, at, k), SightFrom(cfg, w, at, k + |Paths(cfg)|));
    if s'.last.Some? {
      assert BasedOn(cfg, w, at, s', k, k + |Paths(cfg)|, {}, k, k + |Paths(cfg)| + |cfg.files| + 1);
    }
  }

  /** What the startup load saw is required from then on: a tick that finds one of its files gone changes nothing. */
  lemma LoadedFilesMustStay(cfg: Config, s: Watch, cur: Print, sight: Sight, tick: Tick, p: string)
    requires Build(cfg, sight, {}).Some? && p in cur && cur[p].present && !(p in tick.cur && tick.cur[p].present)
    ensures Loaded(cfg, s, cur, sight).live == Build(cfg, sight, {}).value
    ensures Ticked(cfg, Loaded(cfg, s, cur, sight), tick) == Loaded(cfg, s, cur, sight)
  {
    VanishedExactly(Loaded(cfg, s, cur, sight).last, tick.cur);
  }

  lemma RoundIsBased(cfg: Config, w: World, at: Instants, s: Watch, first: nat, j: nat, k: nat)
    requires Based(cfg, w, at, s, first, k) && first <= j && j + |Paths(cfg)| <= k
    ensures var r := Round(cfg, s, PrintOf(Paths(cfg), w, at, j), LookFrom(cfg, w, at, k));
            r.Some? ==> Based(cfg, w, at, r.value, first, NextRound(cfg, k))
  {
    hide Build, PrintOf;
    var cur, look := PrintOf(Paths(cfg), w, at, j), LookFrom(cfg, w, at, k);
    var r := Round(cfg, s, cur, look);
    BasedLater(cfg, w, at, s, first, k, NextRound(cfg, k));
    if r.Some? && r.value != s {
      assert BasedOn(cfg, w, at, r.value, j, k, Required(s.last), first, NextRound(cfg, k));
    }
  }

  lemma {:induction false} RetryIsBased(cfg: Config, w: World, at: Instants, s: Watch, first: nat, j: nat, k: nat, rounds: nat)
    requires Based(cfg, w, at, s, first, k) && first <= j && j + |Paths(cfg)| <= k
    ensures Based(cfg, w, at, Retry(cfg, s, PrintOf(Paths(cfg), w, at, j), LooksFrom(cfg, w, at, k, rounds)), first, RoundsEnd(cfg, k, rounds))
    decreases rounds
  {
    hide Based, Round, PrintOf;
    if rounds > 0 {
      var cur, looks := PrintOf(Paths(cfg), w, at, j), LooksFrom(cfg, w, at, k, rounds);
      assert looks[1..] == LooksFrom(cfg, w, at, NextRound(cfg, k), rounds - 1);
      RoundIsBased(cfg, w, at, s, first, j, k);
      var r := Round(cfg, s, cur, looks[0]);
      if r.Some? {
        BasedLater(cfg, w, at, r.value, first, NextRound(cfg, k), RoundsEnd(cfg, k, rounds));
      } else {
        BasedLater(cfg, w, at, s, first, k, NextRound(cfg, k));
        RetryIsBased(cfg, w, at, s, first, k + |cfg.files| + 1, NextRound(cfg, k), rounds - 1);
      }
    }
  }

  lemma TickIsBased(cfg: Config, w: World, at: Instants, s: Watch, tick: Tick, k: nat, first: nat, next: nat)
    requires Based(cfg, w, at, s, first, next) && first <= next <= k && IsTick(cfg, w, at, tick, k)
    ensures Based(cfg, w, at, Ticked(cfg, s, tick), first, TickEnd(cfg, tick, k))
  {
    hide Based, PrintOf, Retry;
    BasedLater(cfg, w, at, s, first, next, k + |Paths(cfg)|);
    BasedLater(cfg, w, at, s, first, next, TickEnd(cfg, tick, k));
    RetryIsBased(cfg, w, at, s, first, k, k + |Paths(cfg)|, |tick.looks|);
  }

  /** The ticks saw the file system one after the other, the first not before read k. */
  ghost predicate InOrder(cfg: Config, w: World, at: Instants, ticks: seq<Tick>, starts: seq<nat>, k: nat)
    requires |starts| == |ticks|
    decreases |ticks|
  {
    ticks == [] ||
    (k <= starts[0] && IsTick(cfg, w, at, ticks[0], starts[0]) && InOrder(cfg, w, at, ticks[1..], starts[1..], TickEnd(cfg, ticks[0], starts[0])))
  }

  /** One past the last read of all the ticks. */
  function TicksEnd(cfg: Config, ticks: seq<Tick>, starts: seq<nat>, k: nat): nat
    requires |starts| == |ticks|
    decreases |ticks|
  {
    if ticks == [] then k else TicksEnd(cfg, ticks[1..], starts[1..], TickEnd(cfg, ticks[0], starts[0]))
  }

  lemma {:induction false} TicksAreBased(cfg: Config, w: World, at: Instants, s: Watch, ticks: seq<Tick>, starts: seq<nat>, first: nat, k: nat)
    requires |starts| == |ticks| && first <= k && Based(cfg, w, at, s, first, k) && InOrder(cfg, w, at, ticks, starts, k)
    ensures Based(cfg, w, at, AfterTicks(cfg, s, ticks), first, TicksEnd(cfg, ticks, starts, k))
    decreases |ticks|
  {
    hide Based, IsTick, Ticked, TickEnd;
    if ticks != [] {
      TickIsBased(cfg, w, at, s, ticks[0], starts[0], first, k);
      TicksAreBased(cfg, w, at, Ticked(cfg, s, ticks[0]), ticks[1..], starts[1..], first, TickEnd(cfg, ticks[0], starts[0]));
    }
  }

  /** The live snapshot is what the files hold at the instant. */
  ghost predicate IsCurrent(cfg: Config, w: World, snap: Snapshot, t: int) {
    exists required :: Build(cfg, SightAt(cfg, w, t), required) == Some(snap)
  }

  /** The last read of the fingerprint from read m on. */
  function PrintEnd(cfg: Config, m: nat): nat {
    if Paths(cfg) == [] then m else m + |Paths(cfg)| - 1
  }

  lemma SamePrintSameSight(cfg: Config, w: World, at: Instants, j: nat, k: nat, m: nat)
    requires j + |Paths(cfg)| <= k && k + |cfg.files| < m && Telling(Paths(cfg), w, at(j), at(PrintEnd(cfg, m))) && Monotone(at)
    requires PrintOf(Paths(cfg), w, at, j) == PrintOf(Paths(cfg), w, at, m)
    ensures SightFrom(cfg, w, at, k) == SightAt(cfg, w, at(m))
  {
    var paths := Paths(cfg);
    forall x | k <= x <= k + |cfg.files|
      ensures Steady(paths, w, at, at(m), x)
    {
      if |paths| > 0 {
        SamePrintIsSteady(paths, w, at, j, x, m);
        SamePrintIsSteady(paths, w, at, j, m, m);
      }
    }
    SteadySight(cfg, w, at, at(m), k);
  }

  lemma UnchangedIsCurrent(cfg: Config, w: World, at: Instants, s: Watch, first: nat, next: nat, m: nat)
    requires Based(cfg, w, at, s, first, next) && next <= m && Telling(Paths(cfg), w, at(first), at(PrintEnd(cfg, m))) && Monotone(at)
    requires s.last == Some(PrintOf(Paths(cfg), w, at, m))
    ensures IsCurrent(cfg, w, s.live, at(m))
  {
    var j, k, required :| BasedOn(cfg, w, at, s, j, k, required, first, next);
    Ordered(at, first, j);
    SamePrintSameSight(cfg, w, at, j, k, m);
  }

  /**
   After the startup load, torn or not, and any ticks: whenever a later fingerprint is the baseline, so that the tick does
   nothing, the live snapshot is what the files hold at that moment, if since the load no path changed with its fingerprint
   kept or came back to a fingerprint it left. So a tick never takes a torn load for current.
   */
  lemma QuietTickProvesTheSnapshot(cfg: Config, w: World, at: Instants, k: nat, ticks: seq<Tick>, starts: seq<nat>, m: nat)
    requires Monotone(at) && |starts| == |ticks|
    requires InOrder(cfg, w, at, ticks, starts, k + |Paths(cfg)| + |cfg.files| + 1)
    requires TicksEnd(cfg, ticks, starts, k + |Paths(cfg)| + |cfg.files| + 1) <= m
    requires Telling(Paths(cfg), w, at(k), at(PrintEnd(cfg, m)))
    ensures var s0 := Loaded(cfg, Watch(Snapshot([], None), None), PrintOf(Paths(cfg), w, at, k), SightFrom(cfg, w, at, k + |Paths(cfg)|));
            var s := AfterTicks(cfg, s0, ticks);
            s.last == Some(PrintOf(Paths(cfg), w, at, m)) ==> IsCurrent(cfg, w, s.live, at(m))
  {
    hide Based, InOrder, TicksEnd, AfterTicks, IsCurrent, PrintOf, PrintEnd, Loaded, Telling, Monotone, SightFrom, Paths;
    var start, next := Watch(Snapshot([], None), None), k + |Paths(cfg)| + |cfg.files| + 1;
    var s0 := Loaded(cfg, start, PrintOf(Paths(cfg), w, at, k), SightFrom(cfg, w, at, k + |Paths(cfg)|));
    LoadIsBased(cfg, w, at, start, k);
    TicksAreBased(cfg, w, at, s0, ticks, starts, k, next);
    var s := AfterTicks(cfg, s0, ticks);
    if s.last == Some(PrintOf(Paths(cfg), w, at, m)) {
      UnchangedIsCurrent(cfg, w, at, s, k, TicksEnd(cfg, ticks, starts, next), m);
    }
  }
}
