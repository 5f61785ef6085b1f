/**
 What the pacing counters count and what becomes of every chunk, over every interleaving of the streams: the verdict on a
 chunk is decided by the bytes and chunks read in its windows so far, and no chunk of a running stream goes astray.
 */
module PacingExact {
  import opened Basics
  import opened Pacing

  // ----- what was charged to a window -----

  /** What a chunk adds to a window: its bytes, or one to the count of chunks. */
  function Amount(a: Action, kind: Kind, key: int): int {
    if a.Chunk? && Key(kind, a.at) == key then (if kind.Pkt? then 1 else a.n) else 0
  }

  function ChargedTo(run: seq<Action>, kind: Kind, key: int): int {
    if run == [] then 0 else ChargedTo(run[..|run| - 1], kind, key) + Amount(run[|run| - 1], kind, key)
  }

  /** As long as the window lasts, its counter is in the store and holds what was charged to it. */
  ghost predicate Counts(s: Sys, kind: Kind, key: int, total: int) {
    var slot := Slot(kind, key);
    && (slot in s.store ==> key <= Key(kind, s.time) && s.store[slot].expires >= (key + 1) * Length(kind))
    && (Key(kind, s.time) <= key ==> total == if slot in s.store then s.store[slot].value else 0)
  }

  /** A counter written in its window outlives it. */
  lemma OutlivesWindow(kind: Kind, at: int)
    ensures at + Ttl(kind) >= (Key(kind, at) + 1) * Length(kind)
  {
    WindowHoldsReading(kind, at);
  }

  /** What charging a chunk does to the counter of one window. */
  lemma ChargedCounter(store: Store, n: int, at: int, kind: Kind, key: int)
    ensures var slot := Slot(kind, key);
            var was := if slot in store && at < store[slot].expires then Some(store[slot]) else None;
            var now := Charged(store, n, at);
            if Key(kind, at) != key then (slot in now <==> slot in store) && (slot in store ==> now[slot] == store[slot])
            else slot in now && now[slot] == (if was.Some? then Counter(was.value.value + (if kind.Pkt? then 1 else n), was.value.expires)
                                              else Counter(if kind.Pkt? then 1 else n, at + Ttl(kind)))
  {
    hide Key;
  }

  lemma ChunkKeepsCount(l: Limits, s: Sys, a: Action, kind: Kind, key: int, total: int)
    requires a.Chunk? && Enabled(s, a) && Counts(s, kind, key, total)
    ensures Counts(Step(l, s, a), kind, key, total + Amount(a, kind, key))
  {
    hide Charged, Decide, CountsAfter;
    ChargedCounter(s.store, a.n, a.at, kind, key);
    WindowsAdvance(kind, s.time, a.at);
    WindowHoldsReading(kind, a.at);
    OutlivesWindow(kind, a.at);
  }

  lemma StepKeepsCount(l: Limits, s: Sys, a: Action, kind: Kind, key: int, total: int)
    requires Enabled(s, a) && Counts(s, kind, key, total)
    ensures Counts(Step(l, s, a), kind, key, total + Amount(a, kind, key))
  {
    if a.Chunk? {
      ChunkKeepsCount(l, s, a, kind, key, total);
    } else {
      WindowsAdvance(kind, s.time, a.at);
    }
  }

  lemma {:induction false} RunsSplit(l: Limits, s: Sys, run: seq<Action>)
    requires run != [] && Legal(l, s, run)
    ensures var n := |run| - 1;
            && Legal(l, s, run[..n]) && Enabled(Exec(l, s, run[..n]), run[n]) && Exec(l, s, run) == Step(l, Exec(l, s, run[..n]), run[n])
    decreases |run|
  {
    hide Enabled, Step;
    var n := |run| - 1;
    if n > 0 {
      RunsSplit(l, Step(l, s, run[0]), run[1..]);
      assert run[..n][1..] == run[1..][..n - 1] && run[1..][n - 1] == run[n] && run[..n][0] == run[0];
    }
  }

  lemma {:induction false} RunKeepsCount(l: Limits, s: Sys, run: seq<Action>, kind: Kind, key: int)
    requires Legal(l, s, run) && Init(s)
    ensures Counts(Exec(l, s, run), kind, key, ChargedTo(run, kind, key))
    decreases |run|
  {
    hide Counts, Enabled, Step;
    if run == [] {
      NothingCounted(s, kind, key);
    } else {
      var n := |run| - 1;
      RunsSplit(l, s, run);
      RunKeepsCount(l, s, run[..n], kind, key);
      StepKeepsCount(l, Exec(l, s, run[..n]), run[n], kind, key, ChargedTo(run[..n], kind, key));
    }
  }

  lemma NothingCounted(s: Sys, kind: Kind, key: int)
    requires Init(s)
    ensures Counts(s, kind, key, 0)
  {
  }

  function CapOf(l: Limits, kind: Kind): int {
    match kind
    case Sec => l.rate
    case Pkt => l.packets
    case Day => l.day
    case Week => l.week
  }

  /** The bytes, or chunks, read in the chunk's window so far, itself included, are more than the window allows. */
  predicate Exceeds(l: Limits, run: seq<Action>, a: Action, kind: Kind)
    requires a.Chunk?
  {
    (kind.Pkt? ==> l.packets > 0) && ChargedTo(run + [a], kind, Key(kind, a.at)) > CapOf(l, kind)
  }

  lemma CountIsWhatWasRead(l: Limits, s: Sys, run: seq<Action>, a: Action, kind: Kind)
    requires Init(s) && Legal(l, s, run) && a.Chunk? && Enabled(Exec(l, s, run), a)
    ensures var t := Exec(l, s, run); Over(l, CountsAfter(t.store, a.n, a.at), kind) <==> Exceeds(l, run, a, kind)
  {
    hide Key, Charged;
    var t, key := Exec(l, s, run), Key(kind, a.at);
    RunKeepsCount(l, s, run, kind, key);
    assert (run + [a])[..|run|] == run;
    CounterAfterChunk(t, a, kind, ChargedTo(run, kind, key));
  }

  lemma CounterAfterChunk(s: Sys, a: Action, kind: Kind, total: int)
    requires a.Chunk? && Enabled(s, a) && Counts(s, kind, Key(kind, a.at), total)
    ensures var slot := Slot(kind, Key(kind, a.at));
            slot in Charged(s.store, a.n, a.at) && Charged(s.store, a.n, a.at)[slot].value == total + Amount(a, kind, Key(kind, a.at))
  {
    hide Charged;
    var key := Key(kind, a.at);
    ChargedCounter(s.store, a.n, a.at, kind, key);
    WindowsAdvance(kind, s.time, a.at);
    WindowHoldsReading(kind, a.at);
  }

  /**
   The verdict on a chunk, told by what was read: in every run it is forwarded at once exactly when none of its windows is
   exceeded by what the streams read in it so far, and its stream is ended exactly when a day or week is exceeded that lasts
   longer than the longest wait.
   */
  lemma VerdictIsByWhatWasRead(l: Limits, s: Sys, run: seq<Action>, a: Action)
    requires Init(s) && Legal(l, s, run) && a.Chunk? && Enabled(Exec(l, s, run), a)
    ensures var t := Exec(l, s, run);
            var u := Step(l, t, a);
            && (|u.log| == |t.log| + 1 <==> forall kind :: !Exceeds(l, run, a, kind))
            && (u.streams[a.i].Ended? <==> exists kind | kind in {Day, Week} :: Exceeds(l, run, a, kind) && Reset(kind, a.at) > MAX_WAIT)
            && (|u.log| == |t.log| + 1 ==> u.log[|t.log|].n == a.n && u.log[|t.log|].stream == a.i && u.log[|t.log|].at == a.at)
  {
    hide Exceeds, Charged, Over;
    var t := Exec(l, s, run);
    var c := CountsAfter(t.store, a.n, a.at);
    forall kind
      ensures Over(l, c, kind) <==> Exceeds(l, run, a, kind)
    {
      CountIsWhatWasRead(l, s, run, a, kind);
    }
    VerdictIsRight(l, c, a.at);
  }

  // ----- what becomes of a chunk -----

  function ReadBy(run: seq<Action>, i: nat): int {
    if run == [] then 0 else ReadBy(run[..|run| - 1], i) + if run[|run| - 1].Chunk? && run[|run| - 1].i == i then run[|run| - 1].n else 0
  }

  function SentBy(log: seq<Sent>, i: nat): int {
    if log == [] then 0 else SentBy(log[..|log| - 1], i) + if log[|log| - 1].stream == i then log[|log| - 1].n else 0
  }

  function HeldBy(x: Stream): int {
    if x.Holding? then x.n else 0
  }

  ghost predicate Balanced(s: Sys, i: nat, read: int) {
    i < |s.streams| && (!s.streams[i].Ended? ==> read == SentBy(s.log, i) + HeldBy(s.streams[i]))
  }

  lemma StepKeepsBalance(l: Limits, s: Sys, a: Action, i: nat, read: int)
    requires Enabled(s, a) && Balanced(s, i, read)
    ensures Balanced(Step(l, s, a), i, read + if a.Chunk? && a.i == i then a.n else 0)
  {
    hide Charged, Decide, CountsAfter;
    var t := Step(l, s, a);
    assert |t.log| == |s.log| + 1 ==> t.log[..|s.log|] == s.log;
  }

  /** No chunk goes astray: in every run, what a stream that has not ended has read is what it forwarded and the chunk it waits with. */
  lemma {:induction false} ChunksAreConserved(l: Limits, s: Sys, run: seq<Action>, i: nat)
    requires Init(s) && Legal(l, s, run) && i < |s.streams|
    ensures var t := Exec(l, s, run);
            i < |t.streams| && (!t.streams[i].Ended? ==> ReadBy(run, i) == SentBy(t.log, i) + HeldBy(t.streams[i]))
    decreases |run|
  {
    hide Enabled, Step;
    if run != [] {
      var n := |run| - 1;
      RunsSplit(l, s, run);
      ChunksAreConserved(l, s, run[..n], i);
      StepKeepsBalance(l, Exec(l, s, run[..n]), run[n], i, ReadBy(run[..n], i));
    }
  }
}
