/**
 Order budgets: an order first holds a place on every bucket it may spend from, then commits or
 releases each of them. Reserving, committing, releasing and sweeping expired places interleave freely. Every
 section has a node reading of its own, which may be behind that of an earlier section, and server times of its
 own for each pipeline; the difference of reading and server time is bounded by the skew.

 A place stands for a later commit until its deadline has passed on some clock, or a section that admits an
 order does not list its node as live.
 */
module Reservations {
  import opened Basics
  import opened TokenBucket
  import opened Budget
  import opened BudgetLedger
  import opened InflightHolds

  /** An admitted order: its place, the buckets where it is still open, and whether its node was listed ever since. */
  datatype Resv = Resv(place: Place, open: set<string>, listed: bool)

  /**
   `server` is the time of the last command and `written` that of the last section's write: a section reads after the
   section before it wrote, while releases, which have no lock, may come between its read and its write.
   `admitted` is the largest reading that admitted an order to the bucket; `latest` bounds every reading so far and
   is no later than any node can read now. `lag` is the most that the reading of a commit was behind `admitted`, and
   `uncovered` counts the commits whose place did not stand any more.
   */
  datatype Sys = Sys(server: int, written: int, admitted: int, latest: int, levels: Levels, inflight: Inflight, resvs: seq<Resv>,
                     commits: seq<string>, hist: map<string, Hist>, lag: int, uncovered: nat)

  datatype Action =
    | Admit(bs: seq<Bucket>, place: Place, live: seq<string>, at: Clock, count: int)   // ReserveACME, admitted
    | Sweep(bs: seq<Bucket>, live: seq<string>, now: int, server: int)                 // ReserveACME, refused
    | Spend(i: nat, b: Bucket, at: Clock)                                              // CommitACME
    | Release(i: nat, bs: seq<Bucket>, server: int)                                    // ReleaseACME

  function Start(skew: Skew): Sys {
    Sys(0, 0, skew.low, skew.low, map[], map[], [], [], map[], 0, 0)
  }

  function Keys(bs: seq<Bucket>): set<string> {
    set i | 0 <= i < |bs| :: bs[i].key
  }

  predicate Stands(b: Bucket, r: Resv, latest: int) {
    b.key in r.open && r.listed && BeforeDeadline(r.place.deadline, latest)
  }

  function Relisted(resvs: seq<Resv>, live: seq<string>): (r: seq<Resv>)
    ensures |r| == |resvs|
    ensures forall i :: 0 <= i < |resvs| ==> r[i] == resvs[i].(listed := resvs[i].listed && resvs[i].place.node in live)
  {
    seq(|resvs|, i requires 0 <= i < |resvs| => resvs[i].(listed := resvs[i].listed && resvs[i].place.node in live))
  }

  function ReserveAt(s: Sys, a: Action): (bool, int, Inflight)
    requires a.Admit?
  {
    Reserve(s.levels, s.inflight, a.bs, a.place.node, a.place.member, a.place.deadline, a.live, a.at.now, a.at.read, a.count, a.at.write)
  }

  ghost predicate Enabled(b: Bucket, skew: Skew, s: Sys, a: Action) {
    match a
    case Admit(bs, place, live, at, count) =>
      && SectionAt(s.written, skew, at) && s.server <= at.write && at.read <= count <= at.write && Consistent(b, bs)
      && (forall i :: 0 <= i < |s.resvs| ==> s.resvs[i].place.member != place.member)
      && ReserveAt(s, a).0
    case Sweep(bs, live, now, server) => s.server <= server && skew.Reads(server, now)
    case Spend(i, c, at) => SectionAt(s.written, skew, at) && s.server <= at.write && i < |s.resvs| && (c.key == b.key ==> c == b)
    case Release(i, bs, server) => s.server <= server && i < |s.resvs| && Consistent(b, bs)
  }

  ghost function Step(b: Bucket, skew: Skew, s: Sys, a: Action): Sys
    requires Enabled(b, skew, s, a)
  {
    match a
    case Admit(bs, place, live, at, count) =>
      var named := HasKey(bs, b.key);
      s.(server := at.write, written := at.write, latest := Max(s.latest, at.now), admitted := if named then Max(s.admitted, at.now) else s.admitted,
         inflight := ReserveAt(s, a).2, resvs := (if named then Relisted(s.resvs, live) else s.resvs) + [Resv(place, Keys(bs), true)])
    case Sweep(bs, live, now, server) =>
      s.(server := server, latest := Max(s.latest, now), inflight := PurgedAll(s.inflight, bs, live, server, now))
    case Spend(i, c, at) =>
      var r, latest := s.resvs[i], Max(s.latest, at.now);
      s.(server := at.write, written := at.write, latest := latest,
         levels := Commit(s.levels, c, at.now, at.read, at.write), inflight := Drop(s.inflight, c, r.place.node, r.place.member, at.write),
         resvs := s.resvs[i := r.(open := r.open - {c.key})], commits := s.commits + [c.key], hist := Note(s.hist, [c], at.now),
         lag := if c == b then Max(s.lag, s.admitted - at.now) else s.lag,
         uncovered := if c == b && !Stands(b, r, latest) then s.uncovered + 1 else s.uncovered)
    case Release(i, bs, server) =>
      var r := s.resvs[i];
      s.(server := server, latest := Max(s.latest, server + skew.low),
         inflight := DropAll(s.inflight, bs, r.place.node, r.place.member, server), resvs := s.resvs[i := r.(open := r.open - Keys(bs))])
  }

  ghost predicate Legal(b: Bucket, skew: Skew, s: Sys, run: seq<Action>)
    decreases |run|
  {
    run == [] || (Enabled(b, skew, s, run[0]) && Legal(b, skew, Step(b, skew, s, run[0]), run[1..]))
  }

  ghost function Exec(b: Bucket, skew: Skew, s: Sys, run: seq<Action>): Sys
    requires Legal(b, skew, s, run)
    decreases |run|
  {
    if run == [] then s else Exec(b, skew, Step(b, skew, s, run[0]), run[1..])
  }

  function CommitsOn(commits: seq<string>, k: string): nat {
    if commits == [] then 0 else CommitsOn(commits[..|commits| - 1], k) + if commits[|commits| - 1] == k then 1 else 0
  }

  /** The orders whose place on the bucket stands. */
  function Standing(b: Bucket, resvs: seq<Resv>, latest: int): set<nat> {
    set i | 0 <= i < |resvs| && Stands(b, resvs[i], latest)
  }

  // ----- the tokens of a bucket at a reading -----

  /** The tokens a node that reads x finds, whether or not the key has expired. */
  function Tokens(b: Bucket, levels: Levels, x: int): real {
    TokensAt(b, if b.key in levels then levels[b.key].AsLevel() else Level(b.capacity, x), x)
  }

  ghost predicate Accounted(b: Bucket, skew: Skew, s: Sys)
    requires b.refill > 0
  {
    && (b.key in s.levels <==> b.key in s.hist)
    && (b.key in s.levels ==> Account(b, skew, s.levels[b.key], s.hist[b.key], CommitsOn(s.commits, b.key) as real) && s.hist[b.key].latest <= s.latest)
    && (b.key !in s.levels ==> CommitsOn(s.commits, b.key) == 0)
  }

  lemma ViewHasTokens(b: Bucket, skew: Skew, s: Sys, server: int, x: int)
    requires b.refill > 0 && Accounted(b, skew, s) && skew.Reads(server, x)
    ensures TokensAt(b, View(s.levels, b, server, x), x) == Tokens(b, s.levels, x)
    ensures SpendN(b, View(s.levels, b, server, x), x, 1.0) == SpendN(b, if b.key in s.levels then s.levels[b.key].AsLevel() else Level(b.capacity, x), x, 1.0)
  {
    if b.key in s.levels {
      ForgettingIsUnobservable(b, s.levels[b.key], skew, server, x, 1.0);
    }
  }

  /** Between two readings the bucket gains, and no more than the refill of the time between. */
  lemma TokensGrow(b: Bucket, level: Level, x: int, y: int)
    requires b.refill > 0 && level.tokens <= b.capacity && x <= y
    ensures TokensAt(b, level, x) <= TokensAt(b, level, y) <= TokensAt(b, level, x) + Refilled(b, y - x)
  {
    RefilledMonotone(b, 0, y - x);
    if x >= level.at {
      RefilledSplits(b, x - level.at, y - x);
      RefilledMonotone(b, 0, x - level.at);
    } else if y >= level.at {
      RefilledMonotone(b, 0, y - level.at);
      RefilledMonotone(b, y - level.at, y - x);
    }
  }

  lemma TokensGrowIn(b: Bucket, skew: Skew, s: Sys, x: int, y: int)
    requires b.refill > 0 && Accounted(b, skew, s) && x <= y
    ensures Tokens(b, s.levels, x) <= Tokens(b, s.levels, y) <= Tokens(b, s.levels, x) + Refilled(b, y - x)
  {
    RefilledMonotone(b, 0, y - x);
    if b.key in s.levels {
      TokensGrow(b, s.levels[b.key].AsLevel(), x, y);
    }
  }

  /** Spending one token at any reading, even an earlier one, costs a reader at x one token and no more. */
  lemma SpendCostsOne(b: Bucket, level: Level, now: int, x: int)
    requires b.refill > 0 && level.tokens <= b.capacity
    ensures var spent := SpendN(b, level, now, 1.0);
            TokensAt(b, Level(spent.tokens, FloorMs(spent.at)), x) >= TokensAt(b, level, x) - 1.0
  {
    var spent := SpendN(b, level, now, 1.0);
    var cut := FloorMs(spent.at);
    if x >= cut {
      RefilledMonotone(b, 0, x - cut);
    }
    if x >= spent.at {
      RefilledMonotone(b, x - spent.at, x - cut);
      if now >= level.at {
        TokensGrow(b, level, now, x);
      }
    } else if now >= level.at {
      TokensGrow(b, level, x, now);
    }
  }

  // ----- the invariant -----

  ghost predicate RecordedAt(b: Bucket, skew: Skew, s: Sys, i: nat) {
    i < |s.resvs| && (Stands(b, s.resvs[i], s.latest) ==> Recorded(s.inflight, b, skew, s.resvs[i].place))
  }

  ghost predicate OwnMembers(s: Sys) {
    forall i, j :: 0 <= i < j < |s.resvs| ==> s.resvs[i].place.member != s.resvs[j].place.member
  }

  ghost predicate Clocks(skew: Skew, s: Sys) {
    && s.written <= s.server && s.admitted <= s.latest && s.server + skew.low <= s.latest
    && s.admitted <= s.written + skew.low + skew.width
    && s.latest <= s.server + skew.low + skew.width
    && 0 <= s.lag <= skew.width
  }

  ghost predicate Covered(b: Bucket, s: Sys)
    requires b.refill > 0
  {
    && Tokens(b, s.levels, s.admitted) >= |Standing(b, s.resvs, s.latest)| as real - s.uncovered as real
    && (b.key in s.levels ==> s.levels[b.key].tokens >= -Refilled(b, s.lag) - s.uncovered as real)
  }

  ghost predicate Inv(b: Bucket, skew: Skew, s: Sys)
    requires b.refill > 0
  {
    && Accounted(b, skew, s) && Covered(b, s) && OwnMembers(s) && Clocks(skew, s)
    && (forall i :: 0 <= i < |s.resvs| ==> RecordedAt(b, skew, s, i))
  }

  lemma FewerStand(b: Bucket, s: Sys, resvs: seq<Resv>, latest: int)
    requires |resvs| == |s.resvs| && s.latest <= latest
    requires forall i :: 0 <= i < |resvs| && Stands(b, resvs[i], latest) ==> Stands(b, s.resvs[i], s.latest)
    ensures |Standing(b, resvs, latest)| <= |Standing(b, s.resvs, s.latest)|
  {
    SubsetIsSmaller(Standing(b, resvs, latest), Standing(b, s.resvs, s.latest));
  }

  // ----- admitting -----

  lemma {:induction false} PlacesCount(resvs: seq<Resv>, ids: set<nat>)
    requires forall i :: i in ids ==> i < |resvs|
    requires forall i, j :: 0 <= i < j < |resvs| ==> resvs[i].place.member != resvs[j].place.member
    ensures |set i | i in ids :: (resvs[i].place.node, resvs[i].place.member)| == |ids|
  {
    if ids != {} {
      var x :| x in ids;
      var rest := set i | i in ids - {x} :: (resvs[i].place.node, resvs[i].place.member);
      var own := (resvs[x].place.node, resvs[x].place.member);
      PlacesCount(resvs, ids - {x});
      assert (set i | i in ids :: (resvs[i].place.node, resvs[i].place.member)) == rest + {own};
      assert own !in rest;
    }
  }

  /** The counts of an admission include every place that stands after it. */
  lemma CountsCoverStanding(b: Bucket, skew: Skew, s: Sys, a: Action)
    requires b.refill > 0 && a.Admit? && Enabled(b, skew, s, a) && Inv(b, skew, s)
    ensures HeldOn(s.inflight, b, a.live, a.count, a.at.now) >= |Standing(b, Relisted(s.resvs, a.live), Max(s.latest, a.at.now))|
  {
    var resvs, latest := Relisted(s.resvs, a.live), Max(s.latest, a.at.now);
    var ids := Standing(b, resvs, latest);
    var pairs := set i | i in ids :: (resvs[i].place.node, resvs[i].place.member);
    PlacesCount(resvs, ids);
    forall i | i in ids
      ensures (resvs[i].place.node, resvs[i].place.member) in PairsOn(s.inflight, b, a.live, a.count, a.at.now)
    {
      assert RecordedAt(b, skew, s, i);
      RecordedIsCounted(s.inflight, b, skew, s.resvs[i].place, a.count, a.at.now);
    }
    SubsetIsSmaller(pairs, PairsOn(s.inflight, b, a.live, a.count, a.at.now));
    LiveCountsCover(s.inflight, b, a.live, a.count, a.at.now);
  }

  /** An admission that names the bucket found a token beyond those of the places that stand. */
  lemma AdmitAffords(b: Bucket, skew: Skew, s: Sys, a: Action)
    requires b.refill > 0 && a.Admit? && Enabled(b, skew, s, a) && Inv(b, skew, s) && HasKey(a.bs, b.key)
    ensures Tokens(b, s.levels, a.at.now) >= |Standing(b, Relisted(s.resvs, a.live), Max(s.latest, a.at.now))| as real + 1.0
  {
    CountsCoverStanding(b, skew, s, a);
    ViewHasTokens(b, skew, s, a.at.read, a.at.now);
    var i :| 0 <= i < |a.bs| && a.bs[i].key == b.key;
    assert a.bs[i] == b;
    assert TokensAt(b, View(s.levels, b, a.at.read, a.at.now), a.at.now) - HeldOn(s.inflight, b, a.live, a.count, a.at.now) as real >= 1.0;
  }

  lemma AdmittedStanding(b: Bucket, resvs: seq<Resv>, r: Resv, latest: int)
    ensures |Standing(b, resvs + [r], latest)| <= |Standing(b, resvs, latest)| + if b.key in r.open then 1 else 0
  {
    var before, after := Standing(b, resvs, latest), Standing(b, resvs + [r], latest);
    if b.key in r.open {
      SubsetIsSmaller(after, before + {|resvs|});
    } else {
      SubsetIsSmaller(after, before);
    }
  }

  lemma KeysAreNamed(bs: seq<Bucket>, k: string)
    ensures k in Keys(bs) <==> HasKey(bs, k)
  {
    if HasKey(bs, k) {
      var i :| 0 <= i < |bs| && bs[i].key == k;
      assert bs[i].key in Keys(bs);
    }
  }

  lemma AdmitKeepsCovered(b: Bucket, skew: Skew, s: Sys, a: Action)
    requires b.refill > 0 && a.Admit? && Enabled(b, skew, s, a) && Inv(b, skew, s)
    ensures Covered(b, Step(b, skew, s, a))
  {
    var s' := Step(b, skew, s, a);
    KeysAreNamed(a.bs, b.key);
    if HasKey(a.bs, b.key) {
      AdmitAffords(b, skew, s, a);
      AdmittedStanding(b, Relisted(s.resvs, a.live), Resv(a.place, Keys(a.bs), true), s'.latest);
      TokensGrowIn(b, skew, s, a.at.now, s'.admitted);
    } else {
      AdmittedStanding(b, s.resvs, Resv(a.place, Keys(a.bs), true), s'.latest);
      FewerStand(b, s, s.resvs, s'.latest);
    }
  }

  lemma AdmitKeepsOldRecord(b: Bucket, skew: Skew, s: Sys, a: Action, i: nat)
    requires b.refill > 0 && a.Admit? && Enabled(b, skew, s, a) && Inv(b, skew, s) && i < |s.resvs|
    ensures RecordedAt(b, skew, Step(b, skew, s, a), i)
  {
    var s', r := Step(b, skew, s, a), s.resvs[i].place;
    assert RecordedAt(b, skew, s, i);
    if a.bs != [] && Stands(b, s'.resvs[i], s'.latest) {
      PurgeKeepsRecord(s.inflight, a.bs, a.live, b, skew, a.count, a.at.now, r);
      HoldKeepsRecord(PurgedAll(s.inflight, a.bs, a.live, a.count, a.at.now), a.bs, b, skew, a.place.node, a.place.member, a.place.deadline,
                      a.at.write, a.at.now, r);
    }
  }

  lemma AdmitMakesRecord(b: Bucket, skew: Skew, s: Sys, a: Action)
    requires b.refill > 0 && WithinHoldMargin(skew) && a.Admit? && Enabled(b, skew, s, a)
    ensures RecordedAt(b, skew, Step(b, skew, s, a), |s.resvs|)
  {
    KeysAreNamed(a.bs, b.key);
    if HasKey(a.bs, b.key) {
      HoldMakesRecord(PurgedAll(s.inflight, a.bs, a.live, a.count, a.at.now), a.bs, b, skew, a.place, a.at.write, a.at.now);
    }
  }

  lemma AdmitKeepsInv(b: Bucket, skew: Skew, s: Sys, a: Action)
    requires b.refill > 0 && WithinHoldMargin(skew) && a.Admit? && Enabled(b, skew, s, a) && Inv(b, skew, s)
    ensures Inv(b, skew, Step(b, skew, s, a))
  {
    var s' := Step(b, skew, s, a);
    AdmitKeepsCovered(b, skew, s, a);
    forall i | 0 <= i < |s'.resvs|
      ensures RecordedAt(b, skew, s', i)
    {
      if i < |s.resvs| {
        AdmitKeepsOldRecord(b, skew, s, a, i);
      } else {
        AdmitMakesRecord(b, skew, s, a);
      }
    }
  }

  // ----- sweeping and releasing -----

  lemma SweepKeepsInv(b: Bucket, skew: Skew, s: Sys, a: Action)
    requires b.refill > 0 && a.Sweep? && Enabled(b, skew, s, a) && Inv(b, skew, s)
    ensures Inv(b, skew, Step(b, skew, s, a))
  {
    var s' := Step(b, skew, s, a);
    FewerStand(b, s, s.resvs, s'.latest);
    forall i | 0 <= i < |s'.resvs|
      ensures RecordedAt(b, skew, s', i)
    {
      assert RecordedAt(b, skew, s, i);
      if Stands(b, s'.resvs[i], s'.latest) {
        PurgeKeepsRecord(s.inflight, a.bs, a.live, b, skew, a.server, a.now, s.resvs[i].place);
      }
    }
  }

  lemma ReleaseKeepsInv(b: Bucket, skew: Skew, s: Sys, a: Action)
    requires b.refill > 0 && 0 <= skew.width && a.Release? && Enabled(b, skew, s, a) && Inv(b, skew, s)
    ensures Inv(b, skew, Step(b, skew, s, a))
  {
    var s', r := Step(b, skew, s, a), s.resvs[a.i].place;
    FewerStand(b, s, s'.resvs, s'.latest);
    forall j | 0 <= j < |s'.resvs|
      ensures RecordedAt(b, skew, s', j)
    {
      assert RecordedAt(b, skew, s, j);
      KeysAreNamed(a.bs, b.key);
      if Stands(b, s'.resvs[j], s'.latest) {
        DropAllKeepsRecord(s.inflight, a.bs, b, skew, r.node, r.member, a.server, s.resvs[j].place);
      }
    }
  }

  // ----- committing -----

  /** Committing a place that stands takes exactly that place out of the count. */
  lemma SpendDropsOne(b: Bucket, skew: Skew, s: Sys, a: Action)
    requires b.refill > 0 && a.Spend? && Enabled(b, skew, s, a) && Inv(b, skew, s) && a.b == b
    requires Stands(b, s.resvs[a.i], Max(s.latest, a.at.now))
    ensures |HeldPairs(Step(b, skew, s, a).inflight, b, a.at.write, a.at.now)| == |HeldPairs(s.inflight, b, a.at.write, a.at.now)| - 1
  {
    var r := s.resvs[a.i].place;
    assert RecordedAt(b, skew, s, a.i);
    RecordedIsCounted(s.inflight, b, skew, r, a.at.write, a.at.now);
    DropRemovesPair(s.inflight, b, r.node, r.member, a.at.write, a.at.now);
  }

  lemma SpentStanding(b: Bucket, skew: Skew, s: Sys, a: Action)
    requires b.refill > 0 && a.Spend? && Enabled(b, skew, s, a) && a.b == b
    ensures var s' := Step(b, skew, s, a);
            |Standing(b, s'.resvs, s'.latest)| <= |Standing(b, s.resvs, s.latest)| - if Stands(b, s.resvs[a.i], s'.latest) then 1 else 0
  {
    var s' := Step(b, skew, s, a);
    var before := Standing(b, s.resvs, s.latest);
    if Stands(b, s.resvs[a.i], s'.latest) {
      assert a.i in before;
      SubsetIsSmaller(Standing(b, s'.resvs, s'.latest), before - {a.i});
    } else {
      FewerStand(b, s, s'.resvs, s'.latest);
    }
  }

  /** The level a commit leaves: one token less, at every reading. */
  lemma SpendMovesTokens(b: Bucket, skew: Skew, s: Sys, a: Action)
    requires b.refill > 0 && a.Spend? && Enabled(b, skew, s, a) && Accounted(b, skew, s) && a.b == b
    ensures var s' := Step(b, skew, s, a);
            && b.key in s'.levels && s'.levels[b.key].tokens == Tokens(b, s.levels, a.at.now) - 1.0
            && Tokens(b, s'.levels, s.admitted) >= Tokens(b, s.levels, s.admitted) - 1.0
  {
    var level := if b.key in s.levels then s.levels[b.key].AsLevel() else Level(b.capacity, a.at.now);
    ViewHasTokens(b, skew, s, a.at.read, a.at.now);
    SpendCostsOne(b, level, a.at.now, s.admitted);
    if b.key !in s.levels && s.admitted >= a.at.now {
      RefilledMonotone(b, 0, s.admitted - a.at.now);
    }
  }

  /** However far its reading is behind, a commit of a standing place leaves no less than the refill of the lag below zero. */
  lemma SpendKeepsCovered(b: Bucket, skew: Skew, s: Sys, a: Action)
    requires b.refill > 0 && a.Spend? && Enabled(b, skew, s, a) && Inv(b, skew, s) && a.b == b
    ensures Covered(b, Step(b, skew, s, a))
  {
    hide Tokens, Standing, Accounted, Commit, Drop, Note, SectionAt, OwnMembers, RecordedAt;
    var s' := Step(b, skew, s, a);
    SpendMovesTokens(b, skew, s, a);
    SpentStanding(b, skew, s, a);
    if a.at.now <= s.admitted {
      TokensGrowIn(b, skew, s, a.at.now, s.admitted);
      RefilledMonotone(b, s.admitted - a.at.now, s'.lag);
    } else {
      TokensGrowIn(b, skew, s, s.admitted, a.at.now);
      RefilledMonotone(b, 0, s'.lag);
    }
  }

  lemma SpendKeepsAccount(b: Bucket, skew: Skew, s: Sys, a: Action)
    requires b.refill > 0 && b.capacity >= 0.0 && WithinHoldMargin(skew) && a.Spend? && Enabled(b, skew, s, a) && Inv(b, skew, s)
    ensures Accounted(b, skew, Step(b, skew, s, a))
  {
    var s' := Step(b, skew, s, a);
    assert s'.commits[..|s.commits|] == s.commits;
    NoteAt(s.hist, [a.b], a.at.now, b.key);
    if a.b == b {
      assert [b][0].key == b.key;
      var v := View(s.levels, b, a.at.read, a.at.now);
      MoveKeepsAccount(b, skew, Lookup(s.levels, b.key), Lookup(s.hist, b.key), CommitsOn(s.commits, b.key) as real,
                       a.at, SpendN(b, v, a.at.now, 1.0), 1.0);
    }
  }

  lemma SpendKeepsRecord(b: Bucket, skew: Skew, s: Sys, a: Action, j: nat)
    requires b.refill > 0 && a.Spend? && Enabled(b, skew, s, a) && Inv(b, skew, s) && j < |s.resvs|
    ensures RecordedAt(b, skew, Step(b, skew, s, a), j)
  {
    var s', r := Step(b, skew, s, a), s.resvs[a.i].place;
    assert RecordedAt(b, skew, s, j);
    if Stands(b, s'.resvs[j], s'.latest) {
      DropKeepsRecord(s.inflight, a.b, b, skew, r.node, r.member, a.at.write, s.resvs[j].place);
    }
  }

  lemma SpendKeepsClocks(b: Bucket, skew: Skew, s: Sys, a: Action)
    requires b.refill > 0 && a.Spend? && Enabled(b, skew, s, a) && Clocks(skew, s)
    ensures Clocks(skew, Step(b, skew, s, a))
  {
  }

  lemma SpendKeepsInv(b: Bucket, skew: Skew, s: Sys, a: Action)
    requires b.refill > 0 && b.capacity >= 0.0 && WithinHoldMargin(skew) && a.Spend? && Enabled(b, skew, s, a) && Inv(b, skew, s)
    ensures Inv(b, skew, Step(b, skew, s, a))
  {
    var s' := Step(b, skew, s, a);
    SpendKeepsAccount(b, skew, s, a);
    SpendKeepsClocks(b, skew, s, a);
    if a.b == b {
      SpendKeepsCovered(b, skew, s, a);
    } else {
      FewerStand(b, s, s'.resvs, s'.latest);
    }
    forall j | 0 <= j < |s'.resvs|
      ensures RecordedAt(b, skew, s', j)
    {
      SpendKeepsRecord(b, skew, s, a, j);
    }
  }

  // ----- every run -----

  lemma StepKeepsInv(b: Bucket, skew: Skew, s: Sys, a: Action)
    requires b.refill > 0 && b.capacity >= 0.0 && WithinHoldMargin(skew) && Enabled(b, skew, s, a) && Inv(b, skew, s)
    ensures Inv(b, skew, Step(b, skew, s, a))
  {
    match a
    case Admit(_, _, _, _, _) => AdmitKeepsInv(b, skew, s, a);
    case Sweep(_, _, _, _) => SweepKeepsInv(b, skew, s, a);
    case Spend(_, _, _) => SpendKeepsInv(b, skew, s, a);
    case Release(_, _, _) => ReleaseKeepsInv(b, skew, s, a);
  }

  lemma {:induction false} RunKeepsInv(b: Bucket, skew: Skew, s: Sys, run: seq<Action>)
    requires b.refill > 0 && b.capacity >= 0.0 && WithinHoldMargin(skew) && Legal(b, skew, s, run) && Inv(b, skew, s)
    ensures Inv(b, skew, Exec(b, skew, s, run))
    decreases |run|
  {
    if run != [] {
      StepKeepsInv(b, skew, s, run[0]);
      RunKeepsInv(b, skew, Step(b, skew, s, run[0]), run[1..]);
    }
  }

  lemma StartHolds(b: Bucket, skew: Skew)
    requires b.refill > 0 && b.capacity >= 0.0 && WithinHoldMargin(skew)
    ensures Inv(b, skew, Start(skew))
  {
    assert Standing(b, [], skew.low) == {};
  }

  lemma CommitsWithinAllowance(b: Bucket, skew: Skew, s: Sys)
    requires b.refill > 0 && Inv(b, skew, s) && b.key in s.hist
    ensures CommitsOn(s.commits, b.key) as real <= Allowance(b, s.hist[b.key], s.latest) + s.uncovered as real
  {
    var e, h := s.levels[b.key], s.hist[b.key];
    RefilledMonotone(b, e.at - h.first, s.latest - h.first);
    if s.admitted > e.at {
      RefilledSplits(b, s.admitted - e.at, e.at - h.first);
      RefilledMonotone(b, s.admitted - h.first, s.latest - h.first);
    }
  }

  /**
   In every run, a node that reads no earlier than the latest admission finds a token for each place that stands,
   but for one for each commit whose place stood no more. Commits stay within a full bucket plus the refill since its
   first use (plus the millisecond cut per write), and those. A place that stands is counted by every section.
   */
  lemma ReservationsCoverCommits(b: Bucket, skew: Skew, run: seq<Action>, server: int, x: int)
    requires b.refill > 0 && b.capacity >= 0.0 && WithinHoldMargin(skew) && Legal(b, skew, Start(skew), run)
    requires var s := Exec(b, skew, Start(skew), run); skew.Reads(server, x) && s.server <= server && s.admitted <= x
    ensures var s := Exec(b, skew, Start(skew), run);
            && TokensAt(b, View(s.levels, b, server, x), x) >= |Standing(b, s.resvs, s.latest)| as real - s.uncovered as real
            && (if b.key in s.hist then CommitsOn(s.commits, b.key) as real <= Allowance(b, s.hist[b.key], s.latest) + s.uncovered as real
                else CommitsOn(s.commits, b.key) == 0)
    ensures var s := Exec(b, skew, Start(skew), run);
            forall i :: 0 <= i < |s.resvs| && Stands(b, s.resvs[i], Max(s.latest, x)) ==>
              (s.resvs[i].place.node, s.resvs[i].place.member) in HeldPairs(s.inflight, b, server, x)
  {
    StartHolds(b, skew);
    RunKeepsInv(b, skew, Start(skew), run);
    var s := Exec(b, skew, Start(skew), run);
    ViewHasTokens(b, skew, s, server, x);
    TokensGrowIn(b, skew, s, s.admitted, x);
    if b.key in s.hist {
      CommitsWithinAllowance(b, skew, s);
    }
    forall i | 0 <= i < |s.resvs| && Stands(b, s.resvs[i], Max(s.latest, x))
      ensures (s.resvs[i].place.node, s.resvs[i].place.member) in HeldPairs(s.inflight, b, server, x)
    {
      assert RecordedAt(b, skew, s, i);
      RecordedIsCounted(s.inflight, b, skew, s.resvs[i].place, server, x);
    }
  }

  /**
   How far commits can overdraw the bucket: in every run the stored level is short by no more than the refill of the
   largest lag of a commit behind the admissions, and one token for each commit whose place stood no more. The lag
   is within the skew, and it is zero when readings do not go back.
   */
  lemma LevelIsShortByTheLag(b: Bucket, skew: Skew, run: seq<Action>)
    requires b.refill > 0 && b.capacity >= 0.0 && WithinHoldMargin(skew) && Legal(b, skew, Start(skew), run)
    ensures var s := Exec(b, skew, Start(skew), run);
            && 0 <= s.lag <= skew.width
            && (b.key in s.levels ==> s.levels[b.key].tokens >= -Refilled(b, s.lag) - s.uncovered as real)
            && (ReadingsDoNotGoBack(run) ==> s.lag == 0)
  {
    StartHolds(b, skew);
    RunKeepsInv(b, skew, Start(skew), run);
    if ReadingsDoNotGoBack(run) {
      LaterReadings(b, skew, Start(skew), run);
      SteadyRunDoesNotLag(b, skew, Start(skew), run);
    }
  }

  predicate HasReading(a: Action) {
    a.Admit? || a.Spend?
  }

  function Reading(a: Action): int
    requires HasReading(a)
  {
    a.at.now
  }

  ghost predicate ReadingsDoNotGoBack(run: seq<Action>) {
    forall i, j :: 0 <= i < j < |run| && HasReading(run[i]) && HasReading(run[j]) ==> Reading(run[i]) <= Reading(run[j])
  }

  lemma {:induction false} SteadyRunDoesNotLag(b: Bucket, skew: Skew, s: Sys, run: seq<Action>)
    requires Legal(b, skew, s, run) && ReadingsDoNotGoBack(run) && s.lag == 0
    requires forall i :: 0 <= i < |run| && HasReading(run[i]) ==> s.admitted <= Reading(run[i])
    ensures Exec(b, skew, s, run).lag == 0
    decreases |run|
  {
    if run != [] {
      var t := Step(b, skew, s, run[0]);
      forall i | 0 <= i < |run[1..]| && HasReading(run[1..][i])
        ensures t.admitted <= Reading(run[1..][i])
      {
        assert run[1..][i] == run[i + 1];
      }
      SteadyRunDoesNotLag(b, skew, t, run[1..]);
    }
  }

  lemma {:induction false} LaterReadings(b: Bucket, skew: Skew, s: Sys, run: seq<Action>)
    requires Legal(b, skew, s, run)
    ensures forall i :: 0 <= i < |run| && HasReading(run[i]) ==> s.written + skew.low <= Reading(run[i])
    decreases |run|
  {
    if run != [] {
      LaterReadings(b, skew, Step(b, skew, s, run[0]), run[1..]);
      assert forall i :: 0 < i < |run| ==> run[i] == run[1..][i - 1];
    }
  }

  // ----- the lag costs as much as it may -----

  ghost predicate Reaches(b: Bucket, skew: Skew, s: Sys, t: Sys) {
    exists run :: Legal(b, skew, s, run) && Exec(b, skew, s, run) == t
  }

  lemma {:induction false} OneMore(b: Bucket, skew: Skew, s: Sys, run: seq<Action>, a: Action)
    requires Legal(b, skew, s, run) && Enabled(b, skew, Exec(b, skew, s, run), a)
    ensures Legal(b, skew, s, run + [a]) && Exec(b, skew, s, run + [a]) == Step(b, skew, Exec(b, skew, s, run), a)
    decreases |run|
  {
    if run == [] {
      assert [a][1..] == [];
      assert run + [a] == [a];
    } else {
      OneMore(b, skew, Step(b, skew, s, run[0]), run[1..], a);
      assert (run + [a])[1..] == run[1..] + [a];
    }
  }

  lemma ReachStep(b: Bucket, skew: Skew, s0: Sys, s: Sys, a: Action)
    requires Reaches(b, skew, s0, s) && Enabled(b, skew, s, a)
    ensures Reaches(b, skew, s0, Step(b, skew, s, a))
  {
    var run :| Legal(b, skew, s0, run) && Exec(b, skew, s0, run) == s;
    OneMore(b, skew, s0, run, a);
  }

  lemma ReachedIsInv(b: Bucket, skew: Skew, s: Sys)
    requires b.refill > 0 && b.capacity >= 0.0 && WithinHoldMargin(skew) && Reaches(b, skew, Start(skew), s)
    ensures Inv(b, skew, s)
  {
    hide Inv, Step, Enabled;
    var run :| Legal(b, skew, Start(skew), run) && Exec(b, skew, Start(skew), run) == s;
    StartHolds(b, skew);
    RunKeepsInv(b, skew, Start(skew), run);
  }

  /** The only place held: one order's, on one bucket, taken at server time t and reading r for a second. */
  function OnePlace(b: Bucket, member: string, t: int, r: int): Inflight {
    map[(b.key, "node") := Holds(map[member := (r + SECOND) / MILLISECOND], t + SECOND + INFLIGHT_MARGIN)]
  }

  lemma NothingIsHeld(b: Bucket, t: int, r: int)
    ensures HeldOn(map[], b, ["node"], t, r) == 0
    ensures PurgedAll(map[], [b], ["node"], t, r) == map[]
  {
    var none: Inflight := map[];
    assert ["node"][..0] == [] && [b][..0] == [];
    assert Counted(none, b, "node", t, r) == map[];
    assert Purged(none, b, ["node"][..0], t, r) == none;
    assert Purged(none, b, ["node"], t, r) == none;
    assert PurgedAll(none, [b][..0], ["node"], t, r) == none;
  }

  lemma ReserveAlone(b: Bucket, levels: Levels, member: string, t: int, r: int)
    requires TokensAt(b, View(levels, b, t, r), r) >= 1.0
    ensures var res := Reserve(levels, map[], [b], "node", member, r + SECOND, ["node"], r, t, t, t);
            res.0 && res.2 == OnePlace(b, member, t, r)
  {
    NothingIsHeld(b, t, r);
    assert [b][..0] == [];
    assert HoldAll(map[], [b][..0], "node", member, r + SECOND, t, r) == map[];
  }

  /** No place is held, and the orders so far are all settled; `left` tokens are stored, dated r. */
  ghost predicate Settled(b: Bucket, s: Sys, t: int, r: int, left: real) {
    && s.server <= t && s.written <= t && s.admitted <= r && s.latest <= r && s.inflight == map[] && s.lag == 0 && s.uncovered == 0
    && (forall i :: 0 <= i < |s.resvs| ==> s.resvs[i].place.node == "node" && s.resvs[i].open == {} && |s.resvs[i].place.member| < |s.resvs|)
    && (if b.key in s.levels then s.levels[b.key].AsLevel() == Level(left, r) else left == b.capacity)
  }

  function Name(n: nat): (s: string)
    ensures |s| == n
  {
    seq(n, i => 'x')
  }

  /** The machine with one order admitted last, on its own. */
  function AdmittedOne(b: Bucket, s: Sys, t: int, r: int): Sys {
    s.(server := t, written := t, admitted := r, latest := r, inflight := OnePlace(b, Name(|s.resvs|), t, r),
       resvs := s.resvs + [Resv(Place("node", Name(|s.resvs|), r + SECOND), {b.key}, true)])
  }

  lemma AdmitOne(b: Bucket, skew: Skew, s: Sys, t0: int, r0: int, t: int, r: int, left: real)
    requires b.refill > 0 && b.capacity >= 0.0 && WithinHoldMargin(skew) && Reaches(b, skew, Start(skew), s)
    requires Settled(b, s, t0, r0, left) && t0 <= t && r0 <= r && skew.Reads(t, r) && Tokens(b, s.levels, r) >= 1.0
    ensures Reaches(b, skew, Start(skew), AdmittedOne(b, s, t, r))
  {
    hide Reaches, Inv;
    var admit := Admit([b], Place("node", Name(|s.resvs|), r + SECOND), ["node"], Clock(r, t, t), t);
    ReachedIsInv(b, skew, s);
    assert TokensAt(b, View(s.levels, b, t, r), r) >= 1.0 by {
      InvIsAccounted(b, skew, s);
      ViewHasTokens(b, skew, s, t, r);
    }
    ReserveAlone(b, s.levels, Name(|s.resvs|), t, r);
    AdmitStep(b, skew, s, admit);
    ReachStep(b, skew, Start(skew), s, admit);
  }

  lemma InvIsAccounted(b: Bucket, skew: Skew, s: Sys)
    requires b.refill > 0 && Inv(b, skew, s)
    ensures Accounted(b, skew, s)
  {
  }

  lemma AdmitStep(b: Bucket, skew: Skew, s: Sys, a: Action)
    requires a.Admit? && a == Admit([b], Place("node", Name(|s.resvs|), a.at.now + SECOND), ["node"], Clock(a.at.now, a.count, a.count), a.count)
    requires s.server <= a.count && s.written <= a.count && s.admitted <= a.at.now && s.latest <= a.at.now && skew.Reads(a.count, a.at.now)
    requires forall i :: 0 <= i < |s.resvs| ==> s.resvs[i].place.node == "node" && |s.resvs[i].place.member| < |s.resvs|
    requires ReserveAt(s, a).0 && ReserveAt(s, a).2 == OnePlace(b, Name(|s.resvs|), a.count, a.at.now)
    ensures Enabled(b, skew, s, a) && Step(b, skew, s, a) == AdmittedOne(b, s, a.count, a.at.now)
  {
    hide Reserve;
    assert Relisted(s.resvs, ["node"]) == s.resvs;
    assert [b][0].key == b.key && HasKey([b], b.key);
    assert Keys([b]) == {b.key};
  }

  /** The machine after that order was committed at a reading `lag` behind. */
  function SpentOne(b: Bucket, s: Sys, t: int, r: int, lag: int): Sys
    requires |s.resvs| > 0
  {
    var last := |s.resvs| - 1;
    s.(levels := Commit(s.levels, b, r - lag, t, t), inflight := map[], resvs := s.resvs[last := s.resvs[last].(open := {})],
       commits := s.commits + [b.key], hist := Note(s.hist, [b], r - lag), lag := Max(s.lag, lag))
  }

  lemma SpendOne(b: Bucket, skew: Skew, s: Sys, t: int, r: int, lag: int)
    requires Reaches(b, skew, Start(skew), AdmittedOne(b, s, t, r)) && skew.Reads(t, r) && skew.Reads(t, r - lag) && 0 <= lag
    ensures Reaches(b, skew, Start(skew), SpentOne(b, AdmittedOne(b, s, t, r), t, r, lag))
  {
    var s1 := AdmittedOne(b, s, t, r);
    var spend := Spend(|s.resvs|, b, Clock(r - lag, t, t));
    ReachStep(b, skew, Start(skew), s1, spend);
    assert Drop(s1.inflight, b, "node", Name(|s.resvs|), t) == map[];
    assert {b.key} - {b.key} == {};
    assert Stands(b, s1.resvs[|s.resvs|], r);
  }

  /** What the commit leaves: the tokens at its reading less one. */
  lemma SpentLevel(b: Bucket, skew: Skew, s: Sys, t: int, r: int, lag: int)
    requires b.refill > 0 && b.capacity >= 0.0 && WithinHoldMargin(skew) && Reaches(b, skew, Start(skew), s) && skew.Reads(t, r - lag)
    ensures var after := Commit(s.levels, b, r - lag, t, t);
            b.key in after && after[b.key].AsLevel() ==
            (var l := SpendN(b, if b.key in s.levels then s.levels[b.key].AsLevel() else Level(b.capacity, r - lag), r - lag, 1.0);
             Level(l.tokens, FloorMs(l.at)))
  {
    hide Reaches, Inv;
    ReachedIsInv(b, skew, s);
    InvIsAccounted(b, skew, s);
    ViewHasTokens(b, skew, s, t, r - lag);
  }

  lemma NoWait(b: Bucket, left: real, r: int)
    requires b.refill > 0 && left <= b.capacity
    ensures TokensAt(b, Level(left, r), r) == left
  {
    assert Refilled(b, 0) == 0.0;
  }

  /** One order uses up one token at once. */
  lemma UseOne(b: Bucket, skew: Skew, s: Sys, t: int, r: int, left: real) returns (s': Sys)
    requires b.refill > 0 && WithinHoldMargin(skew) && Reaches(b, skew, Start(skew), s) && skew.Reads(t, r) && r == FloorMs(r)
    requires Settled(b, s, t, r, left) && 1.0 <= left <= b.capacity
    ensures Reaches(b, skew, Start(skew), s') && Settled(b, s', t, r, left - 1.0)
  {
    hide Reaches;
    NoWait(b, left, r);
    AdmitOne(b, skew, s, t, r, t, r, left);
    SpendOne(b, skew, s, t, r, 0);
    SpentLevel(b, skew, AdmittedOne(b, s, t, r), t, r, 0);
    s' := SpentOne(b, AdmittedOne(b, s, t, r), t, r, 0);
  }

  /** Orders at one instant use up the whole bucket. */
  lemma {:induction false} UseUp(b: Bucket, skew: Skew, t: int, r: int, n: nat, used: nat) returns (s: Sys)
    requires b.refill > 0 && WithinHoldMargin(skew) && b.capacity == n as real && used <= n && 0 <= t && skew.Reads(t, r) && r == FloorMs(r)
    ensures Reaches(b, skew, Start(skew), s) && Settled(b, s, t, r, (n - used) as real)
    decreases used
  {
    hide Settled, Reaches;
    if used == 0 {
      s := Start(skew);
      ReachStart(b, skew);
      StartIsSettled(b, skew, t, r);
    } else {
      s := UseUp(b, skew, t, r, n, used - 1);
      s := UseOne(b, skew, s, t, r, (n - used + 1) as real);
    }
  }

  lemma ReachStart(b: Bucket, skew: Skew)
    ensures Reaches(b, skew, Start(skew), Start(skew))
  {
    assert Legal(b, skew, Start(skew), []) && Exec(b, skew, Start(skew), []) == Start(skew);
  }

  lemma StartIsSettled(b: Bucket, skew: Skew, t: int, r: int)
    requires 0 <= t && skew.Reads(t, r)
    ensures Settled(b, Start(skew), t, r, b.capacity)
  {
  }

  /** A refill later one token of the empty bucket is back, and at a reading before that less than one. */
  lemma TokenIsBack(b: Bucket, r: int, lag: int)
    requires b.refill > 0 && b.capacity >= 1.0 && 0 < lag <= b.refill
    ensures TokensAt(b, Level(0.0, r), r + b.refill) == 1.0
    ensures TokensAt(b, Level(0.0, r), r + b.refill - lag) == 1.0 - Refilled(b, lag) && Refilled(b, lag) > 0.0
  {
    RefillOfOne(b);
    RefilledSplits(b, b.refill - lag, lag);
    RefilledMonotone(b, 0, lag);
    RefilledReaches(b, 0, Refilled(b, lag));
  }

  lemma RefillOfOne(b: Bucket)
    requires b.refill > 0
    ensures Refilled(b, b.refill) == 1.0
  {
  }

  ghost predicate ShortBy(b: Bucket, s: Sys, lag: int)
    requires b.refill > 0
  {
    s.lag == lag && s.uncovered == 0 && b.key in s.levels && s.levels[b.key].tokens == -Refilled(b, lag) < 0.0
  }

  /** From an empty bucket: the next order is admitted when a token is back, and committed at a reading `lag` behind. */
  lemma PayLag(b: Bucket, skew: Skew, s: Sys, t: int, r: int, lag: int)
    requires b.refill > 0 && b.capacity >= 1.0 && WithinHoldMargin(skew) && Reaches(b, skew, Start(skew), s)
    requires Settled(b, s, t, r, 0.0) && 0 < lag <= b.refill && skew.Reads(t, r) && skew.Reads(t, r - lag)
    ensures exists s' :: Reaches(b, skew, Start(skew), s') && ShortBy(b, s', lag)
  {
    hide Reaches, Refilled;
    var t', r' := t + b.refill, r + b.refill;
    TokenIsBack(b, r, lag);
    AdmitOne(b, skew, s, t, r, t', r', 0.0);
    SpendOne(b, skew, s, t', r', lag);
    SpentLevel(b, skew, AdmittedOne(b, s, t', r'), t', r', lag);
    assert ShortBy(b, SpentOne(b, AdmittedOne(b, s, t', r'), t', r', lag), lag);
  }

  /**
   The bound is reached: for every bucket of a whole number of tokens, every skew and every lag that it allows, up to the
   time a token takes, a run leaves the bucket short by exactly the refill of the lag, by commits whose places stand.
   */
  lemma LagIsPaid(b: Bucket, skew: Skew, lag: int, n: nat)
    requires b.refill > 0 && b.capacity == n as real && n >= 1 && WithinHoldMargin(skew) && 0 < lag <= b.refill && lag <= skew.width
    ensures exists s :: Reaches(b, skew, Start(skew), s) && ShortBy(b, s, lag)
  {
    var ahead := skew.low + skew.width;
    var r := FloorMs(ahead + MILLISECOND - 1);
    var s := UseUp(b, skew, r - ahead, r, n, n);
    PayLag(b, skew, s, r - ahead, r, lag);
  }

  ghost predicate Overdrawn(b: Bucket, s: Sys) {
    s.uncovered == 0 && b.key in s.levels && s.levels[b.key].tokens < 0.0
  }

  lemma NotOverdrawnWithoutLag(b: Bucket, skew: Skew, s: Sys)
    requires b.refill > 0 && b.capacity >= 0.0 && WithinHoldMargin(skew) && skew.width == 0 && Reaches(b, skew, Start(skew), s)
    ensures !Overdrawn(b, s)
  {
    hide Legal, Exec;
    var run :| Legal(b, skew, Start(skew), run) && Exec(b, skew, Start(skew), run) == s;
    LevelIsShortByTheLag(b, skew, run);
    assert Refilled(b, 0) == 0.0;
  }

  /** Commits whose places stand can overdraw a bucket if and only if readings can be behind. */
  lemma OverdrawnExactlyUnderLag(b: Bucket, skew: Skew, n: nat)
    requires b.refill > 0 && b.capacity == n as real && n >= 1 && WithinHoldMargin(skew)
    ensures (exists s :: Reaches(b, skew, Start(skew), s) && Overdrawn(b, s)) <==> skew.width > 0
  {
    hide Reaches, Refilled;
    if skew.width > 0 {
      var lag := if skew.width <= b.refill then skew.width else b.refill;
      LagIsPaid(b, skew, lag, n);
      var s :| Reaches(b, skew, Start(skew), s) && ShortBy(b, s, lag);
      assert Overdrawn(b, s);
    } else {
      forall s | Reaches(b, skew, Start(skew), s)
        ensures !Overdrawn(b, s)
      {
        NotOverdrawnWithoutLag(b, skew, s);
      }
    }
  }
}
