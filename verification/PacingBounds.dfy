/** How many bytes the streams of one tunnel can forward, over every interleaving of them. */
module PacingBounds {
  import opened Basics
  import opened Pacing

  /** A selection of forwarded chunks. */
  datatype Pick =
    | SentIn(sec: int)                            // left in this second
    | DirectIn(sec: int)                          // charged and left in this second
    | LateBy(sec: int, i: nat)                    // left in this second, charged in an earlier one, by one stream
    | LateBelow(sec: int, i: nat)                 // the same, by all streams before i
    | ChargedTo(kind: Kind, key: int)             // charged to this window
    | Under(kind: Kind, key: int)                 // the same, within its cap
    | OverBy(kind: Kind, key: int, i: nat)        // the same, beyond its cap, by one stream
    | OverBelow(kind: Kind, key: int, i: nat)     // the same, by all streams before i

  predicate Matches(l: Limits, p: Pick, f: Sent) {
    match p
    case SentIn(sec) => Key(Sec, f.at) == sec
    case DirectIn(sec) => Key(Sec, f.at) == sec && Key(Sec, f.charged) == sec
    case LateBy(sec, i) => Key(Sec, f.at) == sec && Key(Sec, f.charged) != sec && f.stream == i
    case LateBelow(sec, i) => Key(Sec, f.at) == sec && Key(Sec, f.charged) != sec && f.stream < i
    case ChargedTo(kind, key) => Key(kind, f.charged) == key
    case Under(kind, key) => Key(kind, f.charged) == key && !Over(l, f.counts, kind)
    case OverBy(kind, key, i) => Key(kind, f.charged) == key && Over(l, f.counts, kind) && f.stream == i
    case OverBelow(kind, key, i) => Key(kind, f.charged) == key && Over(l, f.counts, kind) && f.stream < i
  }

  function Bytes(l: Limits, p: Pick, f: Sent): int {
    if Matches(l, p, f) then f.n else 0
  }

  function Sum(l: Limits, log: seq<Sent>, p: Pick): int {
    if log == [] then 0 else Sum(l, log[..|log| - 1], p) + Bytes(l, p, log[|log| - 1])
  }

  lemma SumAppend(l: Limits, log: seq<Sent>, f: Sent, p: Pick)
    ensures Sum(l, log + [f], p) == Sum(l, log, p) + Bytes(l, p, f)
  {
    assert (log + [f])[..|log|] == log;
  }

  /** A selection that splits in two sums to the two. */
  lemma {:induction false} SumSplits(l: Limits, log: seq<Sent>, p: Pick, q: Pick, r: Pick)
    requires forall k :: 0 <= k < |log| ==> Bytes(l, p, log[k]) == Bytes(l, q, log[k]) + Bytes(l, r, log[k])
    ensures Sum(l, log, p) == Sum(l, log, q) + Sum(l, log, r)
    decreases |log|
  {
    if log != [] {
      SumSplits(l, log[..|log| - 1], p, q, r);
    }
  }

  lemma {:induction false} SumGrows(l: Limits, log: seq<Sent>, p: Pick, q: Pick)
    requires forall k :: 0 <= k < |log| ==> Bytes(l, p, log[k]) <= Bytes(l, q, log[k])
    ensures Sum(l, log, p) <= Sum(l, log, q)
    decreases |log|
  {
    if log != [] {
      SumGrows(l, log[..|log| - 1], p, q);
    }
  }

  // ----- what a waiting stream holds -----

  function AsSent(i: nat, h: Stream): Sent
    requires h.Holding?
  {
    Sent(i, h.n, h.charged, h.counts, h.due)
  }

  function Held(l: Limits, i: nat, h: Stream, p: Pick): int {
    if h.Holding? then Bytes(l, p, AsSent(i, h)) else 0
  }

  function HeldSum(l: Limits, streams: seq<Stream>, p: Pick): int {
    if streams == [] then 0 else HeldSum(l, streams[..|streams| - 1], p) + Held(l, |streams| - 1, streams[|streams| - 1], p)
  }

  lemma {:induction false} HeldUpdate(l: Limits, streams: seq<Stream>, i: nat, h: Stream, p: Pick)
    requires i < |streams|
    ensures HeldSum(l, streams[i := h], p) == HeldSum(l, streams, p) - Held(l, i, streams[i], p) + Held(l, i, h, p)
    decreases |streams|
  {
    var n := |streams| - 1;
    if i == n {
      assert streams[i := h][..n] == streams[..n];
    } else {
      HeldUpdate(l, streams[..n], i, h, p);
      assert streams[i := h][..n] == streams[..n][i := h];
    }
  }

  lemma {:induction false} NothingHeld(l: Limits, streams: seq<Stream>, p: Pick)
    requires forall i :: 0 <= i < |streams| ==> !streams[i].Holding?
    ensures HeldSum(l, streams, p) == 0
    decreases |streams|
  {
    if streams != [] {
      NothingHeld(l, streams[..|streams| - 1], p);
    }
  }

  lemma {:induction false} HeldIsPositive(l: Limits, streams: seq<Stream>, p: Pick)
    requires forall i :: 0 <= i < |streams| && streams[i].Holding? ==> streams[i].n >= 0
    ensures HeldSum(l, streams, p) >= 0
    decreases |streams|
  {
    if streams != [] {
      HeldIsPositive(l, streams[..|streams| - 1], p);
    }
  }

  // ----- waits and forwards -----

  /** A waiting stream holds at most a chunk, and waits until every window that was over has ended. */
  ghost predicate HoldInv(l: Limits, s: Sys, i: nat)
    requires i < |s.streams|
  {
    s.streams[i].Holding? ==>
      var h := s.streams[i];
      && 0 < h.n <= CHUNK && h.charged <= s.time
      && Key(Sec, h.charged) < Key(Sec, h.due)
      && (forall kind :: Over(l, h.counts, kind) ==> Key(kind, h.charged) < Key(kind, h.due))
  }

  ghost predicate SentInv(l: Limits, f: Sent) {
    f.n > 0 && (Key(Sec, f.charged) == Key(Sec, f.at) ==> !Over(l, f.counts, Sec))
  }

  ghost predicate BaseInv(l: Limits, s: Sys) {
    && (forall i :: 0 <= i < |s.streams| ==> HoldInv(l, s, i))
    && (forall k :: 0 <= k < |s.log| ==> SentInv(l, s.log[k]) && s.log[k].stream < |s.streams|)
  }

  /** Every wait reaches into a later second. */
  lemma WaitsLeaveTheSecond(l: Limits, c: Counts, now: int, span: int)
    requires Decide(l, c, now) == Wait(span)
    ensures Key(Sec, now) < Key(Sec, now + span)
    ensures forall kind :: Over(l, c, kind) ==> Key(kind, now) < Key(kind, now + span)
  {
    VerdictIsRight(l, c, now);
    WindowsAdvance(Sec, now, now + span);
  }

  lemma StepKeepsBase(l: Limits, s: Sys, a: Action)
    requires BaseInv(l, s) && Enabled(s, a)
    ensures BaseInv(l, Step(l, s, a))
  {
    hide CountsAfter, Charged, Sum;
    var t := Step(l, s, a);
    assert HoldInv(l, s, a.i);
    if a.Chunk? {
      var c := CountsAfter(s.store, a.n, a.at);
      VerdictIsRight(l, c, a.at);
      if Decide(l, c, a.at).Wait? {
        WaitsLeaveTheSecond(l, c, a.at, Decide(l, c, a.at).span);
      }
    } else if a.Forward? {
      WindowsAdvance(Sec, s.streams[a.i].due, a.at);
    }
    forall i | 0 <= i < |t.streams|
      ensures HoldInv(l, t, i)
    {
      assert HoldInv(l, s, i);
    }
  }

  // ----- within the cap -----

  predicate Bytewise(kind: Kind) {
    !kind.Pkt?
  }

  function Cap(l: Limits, kind: Kind): int {
    match kind
    case Sec => l.rate
    case Pkt => l.packets
    case Day => l.day
    case Week => l.week
  }

  /** Everything charged to the window within its cap, forwarded or still held. */
  function UnderTotal(l: Limits, s: Sys, kind: Kind, key: int): int {
    Sum(l, s.log, Under(kind, key)) + HeldSum(l, s.streams, Under(kind, key))
  }

  /** As long as the window lasts its counter is in the store and covers what was charged within the cap. */
  ghost predicate UnderInv(l: Limits, s: Sys, kind: Kind, key: int) {
    var slot := Slot(kind, key);
    && UnderTotal(l, s, kind, key) <= Max(0, Cap(l, kind))
    && (slot in s.store ==> key <= Key(kind, s.time) && s.store[slot].expires >= (key + 1) * Length(kind))
    && (Key(kind, s.time) <= key ==> if slot in s.store then UnderTotal(l, s, kind, key) <= s.store[slot].value else UnderTotal(l, s, kind, key) <= 0)
  }

  /** What charging does to one window's counter. */
  lemma ChargedSlot(store: Store, n: int, now: int, kind: Kind, key: int)
    requires Bytewise(kind)
    requires Slot(kind, key) in store ==> store[Slot(kind, key)].expires >= (key + 1) * Length(kind)
    ensures var store' := Charged(store, n, now);
            var slot := Slot(kind, key);
            && (slot in store' <==> slot in store || key == Key(kind, now))
            && (slot in store' ==> store'[slot].expires >= (key + 1) * Length(kind))
            && (slot in store' && key == Key(kind, now) ==> store'[slot].value == (if slot in store then store[slot].value else 0) + n)
            && (slot in store && key != Key(kind, now) ==> store'[slot] == store[slot])
  {
    WindowHoldsReading(kind, now);
  }

  lemma ChunkUnder(l: Limits, s: Sys, a: Action, kind: Kind, key: int)
    requires a.Chunk? && Enabled(s, a)
    ensures var t := Step(l, s, a);
            var c := CountsAfter(s.store, a.n, a.at);
            var v := Decide(l, c, a.at);
            UnderTotal(l, t, kind, key) == UnderTotal(l, s, kind, key) + (if !v.Kill? && Key(kind, a.at) == key && !Over(l, c, kind) then a.n else 0)
  {
    hide CountsAfter, Charged, Sum, HeldSum;
    var c := CountsAfter(s.store, a.n, a.at);
    var v := Decide(l, c, a.at);
    SumAppend(l, s.log, Sent(a.i, a.n, a.at, c, a.at), Under(kind, key));
    HeldUpdate(l, s.streams, a.i, Step(l, s, a).streams[a.i], Under(kind, key));
    assert s.streams[a.i := s.streams[a.i]] == s.streams;
  }

  lemma OtherUnder(l: Limits, s: Sys, a: Action, kind: Kind, key: int)
    requires !a.Chunk? && Enabled(s, a) && HoldInv(l, s, a.i)
    ensures UnderTotal(l, Step(l, s, a), kind, key) <= UnderTotal(l, s, kind, key)
  {
    hide CountsAfter, Charged, Decide, Over, Key, Sum, HeldSum;
    HeldUpdate(l, s.streams, a.i, Step(l, s, a).streams[a.i], Under(kind, key));
    if a.Forward? {
      var h := s.streams[a.i];
      SumAppend(l, s.log, Sent(a.i, h.n, h.charged, h.counts, a.at), Under(kind, key));
    }
  }

  lemma StepKeepsUnder(l: Limits, s: Sys, a: Action, kind: Kind, key: int)
    requires BaseInv(l, s) && UnderInv(l, s, kind, key) && Bytewise(kind) && Enabled(s, a)
    ensures UnderInv(l, Step(l, s, a), kind, key)
  {
    assert HoldInv(l, s, a.i);
    WindowsAdvance(kind, s.time, a.at);
    if a.Chunk? {
      ChunkUnder(l, s, a, kind, key);
      ChargedSlot(s.store, a.n, a.at, kind, key);
      WindowHoldsReading(kind, a.at);
    } else {
      OtherUnder(l, s, a, kind, key);
    }
  }

  // ----- beyond the cap -----

  function OverTotal(l: Limits, s: Sys, kind: Kind, key: int, i: nat): int
    requires i < |s.streams|
  {
    Sum(l, s.log, OverBy(kind, key, i)) + Held(l, i, s.streams[i], OverBy(kind, key, i))
  }

  /** A stream gets at most one chunk past an exhausted window, and while the window lasts it is waiting or over. */
  ghost predicate OverInv(l: Limits, s: Sys, kind: Kind, key: int, i: nat)
    requires i < |s.streams|
  {
    && 0 <= Sum(l, s.log, OverBy(kind, key, i)) && OverTotal(l, s, kind, key, i) <= CHUNK
    && (Key(kind, s.time) < key ==> OverTotal(l, s, kind, key, i) == 0)
    && (Key(kind, s.time) == key && OverTotal(l, s, kind, key, i) > 0 ==> s.streams[i].Ended? || (s.streams[i].Holding? && key < Key(kind, s.streams[i].due)))
  }

  lemma StepKeepsOver(l: Limits, s: Sys, a: Action, kind: Kind, key: int, i: nat)
    requires BaseInv(l, s) && i < |s.streams| && OverInv(l, s, kind, key, i) && Enabled(s, a)
    ensures OverInv(l, Step(l, s, a), kind, key, i)
  {
    hide CountsAfter, Charged, Sum;
    var p := OverBy(kind, key, i);
    assert HoldInv(l, s, a.i) && HoldInv(l, s, i);
    WindowsAdvance(kind, s.time, a.at);
    if a.Chunk? {
      var c := CountsAfter(s.store, a.n, a.at);
      VerdictIsRight(l, c, a.at);
      SumAppend(l, s.log, Sent(a.i, a.n, a.at, c, a.at), p);
    } else if a.Forward? {
      var h := s.streams[a.i];
      WindowsAdvance(kind, h.due, a.at);
      SumAppend(l, s.log, Sent(a.i, h.n, h.charged, h.counts, a.at), p);
    }
  }

  // ----- forwarded in a later second -----

  ghost predicate LateInv(l: Limits, s: Sys, sec: int, i: nat)
    requires i < |s.streams|
  {
    && 0 <= Sum(l, s.log, LateBy(sec, i)) <= CHUNK
    && (Key(Sec, s.time) < sec ==> Sum(l, s.log, LateBy(sec, i)) == 0)
    && (Key(Sec, s.time) == sec && Sum(l, s.log, LateBy(sec, i)) > 0 ==> !s.streams[i].Holding? || Key(Sec, s.streams[i].charged) >= sec)
  }

  lemma StepKeepsLate(l: Limits, s: Sys, a: Action, sec: int, i: nat)
    requires BaseInv(l, s) && i < |s.streams| && LateInv(l, s, sec, i) && Enabled(s, a)
    ensures LateInv(l, Step(l, s, a), sec, i)
  {
    hide CountsAfter, Charged, Sum;
    var p := LateBy(sec, i);
    assert HoldInv(l, s, a.i);
    WindowsAdvance(Sec, s.time, a.at);
    if a.Chunk? {
      var c := CountsAfter(s.store, a.n, a.at);
      SumAppend(l, s.log, Sent(a.i, a.n, a.at, c, a.at), p);
    } else if a.Forward? {
      var h := s.streams[a.i];
      WindowsAdvance(Sec, h.due, a.at);
      SumAppend(l, s.log, Sent(a.i, h.n, h.charged, h.counts, a.at), p);
    }
  }

  // ----- every run -----

  ghost predicate WindowInv(l: Limits, s: Sys, kind: Kind, key: int) {
    && UnderInv(l, s, kind, key)
    && forall i :: 0 <= i < |s.streams| ==> OverInv(l, s, kind, key, i)
  }

  ghost predicate SecondInv(l: Limits, s: Sys, sec: int) {
    forall i :: 0 <= i < |s.streams| ==> LateInv(l, s, sec, i)
  }

  lemma StepKeepsWindow(l: Limits, s: Sys, a: Action, kind: Kind, key: int)
    requires BaseInv(l, s) && WindowInv(l, s, kind, key) && Bytewise(kind) && Enabled(s, a)
    ensures WindowInv(l, Step(l, s, a), kind, key)
  {
    StepKeepsUnder(l, s, a, kind, key);
    forall i | 0 <= i < |Step(l, s, a).streams|
      ensures OverInv(l, Step(l, s, a), kind, key, i)
    {
      StepKeepsOver(l, s, a, kind, key, i);
    }
  }

  lemma StepKeepsSecond(l: Limits, s: Sys, a: Action, sec: int)
    requires BaseInv(l, s) && SecondInv(l, s, sec) && Enabled(s, a)
    ensures SecondInv(l, Step(l, s, a), sec)
  {
    forall i | 0 <= i < |Step(l, s, a).streams|
      ensures LateInv(l, Step(l, s, a), sec, i)
    {
      StepKeepsLate(l, s, a, sec, i);
    }
  }

  lemma {:induction false} RunKeeps(l: Limits, s: Sys, run: seq<Action>, kind: Kind, key: int, sec: int)
    requires BaseInv(l, s) && WindowInv(l, s, kind, key) && SecondInv(l, s, sec) && Bytewise(kind) && Legal(l, s, run)
    ensures var t := Exec(l, s, run); BaseInv(l, t) && WindowInv(l, t, kind, key) && SecondInv(l, t, sec) && |t.streams| == |s.streams|
    decreases |run|
  {
    if run != [] {
      StepKeepsBase(l, s, run[0]);
      StepKeepsWindow(l, s, run[0], kind, key);
      StepKeepsSecond(l, s, run[0], sec);
      RunKeeps(l, Step(l, s, run[0]), run[1..], kind, key, sec);
    }
  }

  lemma InitHolds(l: Limits, s: Sys, kind: Kind, key: int, sec: int)
    requires Init(s)
    ensures BaseInv(l, s) && WindowInv(l, s, kind, key) && SecondInv(l, s, sec)
  {
    NothingHeld(l, s.streams, Under(kind, key));
  }

  // ----- one chunk a stream -----

  lemma {:induction false} LateIsBounded(l: Limits, s: Sys, sec: int, m: nat)
    requires SecondInv(l, s, sec) && m <= |s.streams|
    ensures Sum(l, s.log, LateBelow(sec, m)) <= m * CHUNK
    decreases m
  {
    if m == 0 {
      NoneBelowZero(l, s.log, LateBelow(sec, 0));
    } else {
      LateIsBounded(l, s, sec, m - 1);
      SumSplits(l, s.log, LateBelow(sec, m), LateBelow(sec, m - 1), LateBy(sec, m - 1));
      assert LateInv(l, s, sec, m - 1);
    }
  }

  lemma {:induction false} OverIsBounded(l: Limits, s: Sys, kind: Kind, key: int, m: nat)
    requires BaseInv(l, s) && WindowInv(l, s, kind, key) && m <= |s.streams|
    ensures Sum(l, s.log, OverBelow(kind, key, m)) <= m * CHUNK
    decreases m
  {
    if m == 0 {
      NoneBelowZero(l, s.log, OverBelow(kind, key, 0));
    } else {
      OverIsBounded(l, s, kind, key, m - 1);
      SumSplits(l, s.log, OverBelow(kind, key, m), OverBelow(kind, key, m - 1), OverBy(kind, key, m - 1));
      assert OverInv(l, s, kind, key, m - 1) && HoldInv(l, s, m - 1);
    }
  }

  lemma {:induction false} NoneBelowZero(l: Limits, log: seq<Sent>, p: Pick)
    requires (p.LateBelow? || p.OverBelow?) && p.i == 0
    ensures Sum(l, log, p) == 0
    decreases |log|
  {
    if log != [] {
      NoneBelowZero(l, log[..|log| - 1], p);
    }
  }

  // ----- the bounds -----

  lemma DirectIsWithinTheRate(l: Limits, s: Sys, sec: int)
    requires BaseInv(l, s) && UnderInv(l, s, Sec, sec)
    ensures Sum(l, s.log, DirectIn(sec)) <= Max(0, l.rate)
  {
    forall k | 0 <= k < |s.log|
      ensures Bytes(l, DirectIn(sec), s.log[k]) <= Bytes(l, Under(Sec, sec), s.log[k])
    {
      assert SentInv(l, s.log[k]);
    }
    SumGrows(l, s.log, DirectIn(sec), Under(Sec, sec));
    forall i | 0 <= i < |s.streams| && s.streams[i].Holding?
      ensures s.streams[i].n >= 0
    {
      assert HoldInv(l, s, i);
    }
    HeldIsPositive(l, s.streams, Under(Sec, sec));
  }

  lemma SecondIsBounded(l: Limits, s: Sys, sec: int)
    requires BaseInv(l, s) && UnderInv(l, s, Sec, sec) && SecondInv(l, s, sec)
    ensures Sum(l, s.log, SentIn(sec)) <= Max(0, l.rate) + |s.streams| * CHUNK
  {
    SumSplits(l, s.log, SentIn(sec), DirectIn(sec), LateBelow(sec, |s.streams|));
    DirectIsWithinTheRate(l, s, sec);
    LateIsBounded(l, s, sec, |s.streams|);
  }

  lemma WindowIsBounded(l: Limits, s: Sys, kind: Kind, key: int)
    requires BaseInv(l, s) && WindowInv(l, s, kind, key)
    ensures Sum(l, s.log, ChargedTo(kind, key)) <= Max(0, Cap(l, kind)) + |s.streams| * CHUNK
  {
    SumSplits(l, s.log, ChargedTo(kind, key), Under(kind, key), OverBelow(kind, key, |s.streams|));
    OverIsBounded(l, s, kind, key, |s.streams|);
    forall i | 0 <= i < |s.streams| && s.streams[i].Holding?
      ensures s.streams[i].n >= 0
    {
      assert HoldInv(l, s, i);
    }
    HeldIsPositive(l, s.streams, Under(kind, key));
  }

  /** In every run and every clock second, S streams forward at most the rate and one chunk each. */
  lemma SecondBound(l: Limits, s: Sys, run: seq<Action>, sec: int)
    requires Init(s) && Legal(l, s, run)
    ensures Sum(l, Exec(l, s, run).log, SentIn(sec)) <= Max(0, l.rate) + |s.streams| * CHUNK
  {
    InitHolds(l, s, Sec, sec, sec);
    RunKeeps(l, s, run, Sec, sec, sec);
    SecondIsBounded(l, Exec(l, s, run), sec);
  }

  /** In every run, what is charged to a day, or to a week, and forwarded is at most its cap and one chunk a stream. */
  lemma WindowBound(l: Limits, s: Sys, run: seq<Action>, kind: Kind, key: int)
    requires Init(s) && Legal(l, s, run) && kind in {Sec, Day, Week}
    ensures Sum(l, Exec(l, s, run).log, ChargedTo(kind, key)) <= Max(0, Cap(l, kind)) + |s.streams| * CHUNK
  {
    InitHolds(l, s, kind, key, 0);
    RunKeeps(l, s, run, kind, key, 0);
    WindowIsBounded(l, Exec(l, s, run), kind, key);
  }
}
