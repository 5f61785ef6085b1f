/**
 Reloading the ban files (internal/ban/watch.go, internal/ban/engine.go): a tick fingerprints the files, builds
 a snapshot from them and commits it only when the fingerprint did not change meanwhile. The file system is a
 function of time, and every stat and every read of a file happens at an instant of its own: the k-th at
 instant `at(k)`.

 A snapshot is given by the texts it was built from; how they become tables of prefixes and names is not
 modelled, only which files ban countries and whether the country database yields them.
 */
module BanWatch {
  import opened Basics

  /**
   A path at an instant: missing, out of reach (neither its state nor its contents can be read), there but not
   readable, or there with its contents.
   */
  datatype Disk = Missing | OutOfReach | Unreadable(mtime: int, size: int) | Data(mtime: int, text: string)

  datatype FileState = FileState(present: bool, mtime: int, size: int)

  type World = (int, string) -> Disk

  type Instants = nat -> int

  /** The texts of the ban files that were there, in order, and the country database if a file bans a country. */
  datatype Snapshot = Snapshot(texts: seq<string>, csv: Option<string>)

  datatype Config = Config(files: seq<string>, csv: string, bansCountry: string -> bool, expands: (string, seq<string>) -> bool)

  type Print = map<string, FileState>

  // ----- fingerprints -----

  function StateOf(d: Disk): FileState {
    match d
    case Missing => FileState(false, 0, 0)
    case OutOfReach => FileState(false, 0, 0)
    case Unreadable(mtime, size) => FileState(true, mtime, size)
    case Data(mtime, text) => FileState(true, mtime, |text|)
  }

  function Paths(cfg: Config): seq<string> {
    if cfg.csv == "" then cfg.files else cfg.files + [cfg.csv]
  }

  /** The states of the paths, path i seen at instant k + i; a path without a name is left out. */
  function PrintOf(paths: seq<string>, w: World, at: Instants, k: nat): Print {
    if paths == [] then map[]
    else
      var n := |paths| - 1;
      var rest := PrintOf(paths[..n], w, at, k);
      if paths[n] == "" then rest else rest[paths[n] := StateOf(w(at(k + n), paths[n]))]
  }

  function Required(last: Option<Print>): set<string> {
    if last.None? then {} else set p | p in last.value && last.value[p].present
  }

  /** A path that must be there is not there any more. */
  predicate Vanished(required: set<string>, states: Print) {
    exists p :: p in required && !(p in states && states[p].present)
  }

  /** A reload is refused exactly when a path that was there at the last load is not there now; one that never was does not count. */
  lemma VanishedExactly(last: Option<Print>, states: Print)
    ensures Vanished(Required(last), states) <==>
            last.Some? && exists p :: p in last.value && last.value[p].present && !(p in states && states[p].present)
  {
    if last.Some? && exists p :: p in last.value && last.value[p].present && !(p in states && states[p].present) {
      var p :| p in last.value && last.value[p].present && !(p in states && states[p].present);
      assert p in Required(last);
    }
  }

  // ----- building -----

  /** Reading the path fails, and not because it does not exist. */
  predicate Fails(d: Disk) {
    d.Unreadable? || d.OutOfReach?
  }

  /** The files in order, each as it was read: None is the error that keeps the old snapshot. */
  function Gather(files: seq<string>, seen: seq<Disk>, required: set<string>): Option<seq<string>> {
    if files == [] || |seen| != |files| then Some([])
    else
      var n := |files| - 1;
      var before := Gather(files[..n], seen[..n], required);
      if before.None? || Fails(seen[n]) || (seen[n].Missing? && files[n] in required) then None
      else if seen[n].Missing? then before
      else Some(before.value + [seen[n].text])
  }

  /** How many of the first i files were there. */
  function There(seen: seq<Disk>, i: nat): nat
    requires i <= |seen|
  {
    if i == 0 then 0 else There(seen, i - 1) + if seen[i - 1].Data? then 1 else 0
  }

  /**
   What a read of the files gives: an error exactly when one of them cannot be read, or a required one is missing;
   otherwise the texts of the files that are there, all of them and in their order.
   */
  lemma {:induction false} GatherIsRight(files: seq<string>, seen: seq<Disk>, required: set<string>)
    requires |seen| == |files|
    ensures var texts := Gather(files, seen, required);
            && (texts.None? <==> exists i :: 0 <= i < |files| && (Fails(seen[i]) || (seen[i].Missing? && files[i] in required)))
            && (texts.Some? ==> |texts.value| == There(seen, |seen|)
                                && forall i :: 0 <= i < |files| && seen[i].Data? ==> There(seen, i) < |texts.value| && texts.value[There(seen, i)] == seen[i].text)
    decreases |files|
  {
    if files != [] {
      var n := |files| - 1;
      GatherIsRight(files[..n], seen[..n], required);
      forall i: nat | i <= n
        ensures There(seen[..n], i) == There(seen, i)
      {
        SameThere(seen[..n], seen, i);
      }
      var texts := Gather(files, seen, required);
      if exists i :: 0 <= i < |files| && (Fails(seen[i]) || (seen[i].Missing? && files[i] in required)) {
        var i :| 0 <= i < |files| && (Fails(seen[i]) || (seen[i].Missing? && files[i] in required));
        assert i < n ==> seen[..n][i] == seen[i] && files[..n][i] == files[i];
      }
      if texts.None? && Gather(files[..n], seen[..n], required).None? {
        var i :| 0 <= i < n && (Fails(seen[..n][i]) || (seen[..n][i].Missing? && files[..n][i] in required));
        assert seen[i] == seen[..n][i] && files[i] == files[..n][i];
      }
      forall i | 0 <= i < |files| && seen[i].Data? && texts.Some?
        ensures There(seen, i) < |texts.value| && texts.value[There(seen, i)] == seen[i].text
      {
        assert i < n ==> seen[..n][i] == seen[i];
      }
    }
  }

  lemma {:induction false} SameThere(a: seq<Disk>, b: seq<Disk>, i: nat)
    requires i <= |a| <= |b| && a == b[..|a|]
    ensures There(a, i) == There(b, i)
  {
    if i > 0 {
      SameThere(a, b, i - 1);
    }
  }

  /** The country database is looked at only when some file bans a country. */
  function Finish(cfg: Config, texts: seq<string>, csv: Disk, required: set<string>): Option<Snapshot> {
    if forall i :: 0 <= i < |texts| ==> !cfg.bansCountry(texts[i]) then Some(Snapshot(texts, None))
    else if cfg.csv == "" || csv.Missing? then (if cfg.csv in required then None else Some(Snapshot(texts, None)))
    else if Fails(csv) || !cfg.expands(csv.text, texts) then None
    else Some(Snapshot(texts, Some(csv.text)))
  }

  /** What a load sees: every ban file and the country database. */
  datatype Sight = Sight(seen: seq<Disk>, csv: Disk)

  function Build(cfg: Config, sight: Sight, required: set<string>): Option<Snapshot> {
    var texts := Gather(cfg.files, sight.seen, required);
    if texts.None? then None else Finish(cfg, texts.value, sight.csv, required)
  }

  /**
   What a snapshot holds of the country database: nothing when no file bans a country, or when the database is not there
   and not required; else its text. It is an error exactly when it is needed and required but missing, or cannot be read, or
   does not yield the countries.
   */
  lemma FinishIsRight(cfg: Config, texts: seq<string>, csv: Disk, required: set<string>)
    ensures var snap := Finish(cfg, texts, csv, required);
            var needed := exists i :: 0 <= i < |texts| && cfg.bansCountry(texts[i]);
            var there := cfg.csv != "" && !csv.Missing?;
            && (snap.None? <==> needed && (if there then Fails(csv) || !cfg.expands(csv.text, texts) else cfg.csv in required))
            && (snap.Some? ==> snap.value.texts == texts && (snap.value.csv.Some? <==> needed && there) && (snap.value.csv.Some? ==> snap.value.csv.value == csv.text))
  {
  }

  /** The files as they are read one after the other, file i at instant k + i. */
  function SeenFrom(files: seq<string>, w: World, at: Instants, k: nat): (seen: seq<Disk>)
    ensures |seen| == |files|
  {
    if files == [] then [] else SeenFrom(files[..|files| - 1], w, at, k) + [w(at(k + |files| - 1), files[|files| - 1])]
  }

  /** The files as they are at one instant. */
  function SeenAt(files: seq<string>, w: World, t: int): (seen: seq<Disk>)
    ensures |seen| == |files|
  {
    if files == [] then [] else SeenAt(files[..|files| - 1], w, t) + [w(t, files[|files| - 1])]
  }

  function SightFrom(cfg: Config, w: World, at: Instants, k: nat): Sight {
    Sight(SeenFrom(cfg.files, w, at, k), w(at(k + |cfg.files|), cfg.csv))
  }

  /** What the files hold at one instant. */
  function SightAt(cfg: Config, w: World, t: int): Sight {
    Sight(SeenAt(cfg.files, w, t), w(t, cfg.csv))
  }

  // ----- ticks -----

  /** The live snapshot and the fingerprint of the last load. */
  datatype Watch = Watch(live: Snapshot, last: Option<Print>)

  const TRIES: nat := 3

  /** One round of a tick: what the build saw, and the fingerprint taken after it. */
  datatype Look = Look(sight: Sight, after: Print)

  /** A tick: the fingerprint it began with, and the rounds it may look at. */
  datatype Tick = Tick(cur: Print, looks: seq<Look>)

  /** Commit what was built when the fingerprint is still the same. None asks for another round. */
  function Round(cfg: Config, s: Watch, cur: Print, look: Look): Option<Watch> {
    var snap := Build(cfg, look.sight, Required(s.last));
    if snap.None? || Vanished(Required(s.last), look.after) then Some(s)
    else if cur == look.after then Some(Watch(snap.value, Some(cur)))
    else None
  }

  /** The bounded loop: a round that saw a change is followed by one that compares with what it saw last. */
  function Retry(cfg: Config, s: Watch, cur: Print, looks: seq<Look>): Watch
    decreases |looks|
  {
    if looks == [] then s
    else
      var r := Round(cfg, s, cur, looks[0]);
      if r.Some? then r.value else Retry(cfg, s, looks[0].after, looks[1..])
  }

  function Ticked(cfg: Config, s: Watch, tick: Tick): Watch {
    if s.last == Some(tick.cur) || Vanished(Required(s.last), tick.cur) then s else Retry(cfg, s, tick.cur, tick.looks)
  }

  /** The startup load: no fingerprint is taken after it. */
  function Loaded(cfg: Config, s: Watch, cur: Print, sight: Sight): Watch {
    var snap := Build(cfg, sight, {});
    if snap.None? then s else Watch(snap.value, Some(cur))
  }

  function AfterTicks(cfg: Config, s: Watch, ticks: seq<Tick>): Watch
    decreases |ticks|
  {
    if ticks == [] then s else AfterTicks(cfg, Ticked(cfg, s, ticks[0]), ticks[1..])
  }

  /** The reads of a round from the k-th on. */
  function LookFrom(cfg: Config, w: World, at: Instants, k: nat): Look {
    Look(SightFrom(cfg, w, at, k), PrintOf(Paths(cfg), w, at, k + |cfg.files| + 1))
  }

  function NextRound(cfg: Config, k: nat): nat {
    k + |cfg.files| + 1 + |Paths(cfg)|
  }

  function LooksFrom(cfg: Config, w: World, at: Instants, k: nat, rounds: nat): (looks: seq<Look>)
    ensures |looks| == rounds
    decreases rounds
  {
    if rounds == 0 then [] else [LookFrom(cfg, w, at, k)] + LooksFrom(cfg, w, at, NextRound(cfg, k), rounds - 1)
  }

  /** A tick whose first read is the k-th, with a given number of rounds. */
  function TickFrom(cfg: Config, w: World, at: Instants, k: nat, rounds: nat): Tick {
    Tick(PrintOf(Paths(cfg), w, at, k), LooksFrom(cfg, w, at, k + |Paths(cfg)|, rounds))
  }

  // ----- one instant -----

  ghost predicate Monotone(at: Instants) {
    forall i, j :: i <= j ==> at(i) <= at(j)
  }

  lemma Ordered(at: Instants, i: nat, j: nat)
    requires Monotone(at) && i <= j
    ensures at(i) <= at(j)
  {
  }

  /** A path whose fingerprint is the same at two instants did not change between them. */
  ghost predicate Still(w: World, p: string, t: int, u: int, v: int) {
    t <= u <= v && StateOf(w(t, p)) == StateOf(w(v, p)) ==> w(u, p) == w(t, p)
  }

  /**
   From one instant to another no path changes and keeps its fingerprint, or leaves its fingerprint and comes back to it;
   and a path without a name names no file.
   */
  ghost predicate Telling(paths: seq<string>, w: World, from: int, to: int) {
    && (forall p, t, u, v :: p in paths && from <= t && v <= to ==> Still(w, p, t, u, v))
    && (forall t :: w(t, "") == Missing)
  }

  /** Where a path was last looked at in a fingerprint. */
  lemma {:induction false} PrintAt(paths: seq<string>, w: World, at: Instants, p: string) returns (i: nat)
    requires p in paths && p != ""
    ensures i < |paths| && forall m: nat :: p in PrintOf(paths, w, at, m) && PrintOf(paths, w, at, m)[p] == StateOf(w(at(m + i), p))
    decreases |paths|
  {
    var n := |paths| - 1;
    if paths[n] == p {
      i := n;
    } else {
      assert paths == paths[..n] + [paths[n]];
      i := PrintAt(paths[..n], w, at, p);
      forall m: nat
        ensures p in PrintOf(paths, w, at, m) && PrintOf(paths, w, at, m)[p] == StateOf(w(at(m + i), p))
      {
        assert p in PrintOf(paths[..n], w, at, m);
      }
    }
  }

  /** A path whose state is the same in the fingerprints from j and from k was the same at every read between them. */
  lemma ConstantBetween(paths: seq<string>, w: World, at: Instants, j: nat, m: nat, k: nat, p: string)
    requires p in paths && j + |paths| - 1 <= m <= k && Telling(paths, w, at(j), at(k + |paths| - 1)) && Monotone(at)
    requires PrintOf(paths, w, at, j) == PrintOf(paths, w, at, k)
    ensures w(at(m), p) == w(at(j + |paths| - 1), p)
  {
    if p != "" {
      var i := PrintAt(paths, w, at, p);
      var t, v, x := at(j + i), at(k + i), at(j + |paths| - 1);
      assert StateOf(w(t, p)) == PrintOf(paths, w, at, j)[p] && StateOf(w(v, p)) == PrintOf(paths, w, at, k)[p];
      Ordered(at, j, j + i);
      Ordered(at, k + i, k + |paths| - 1);
      Ordered(at, j + i, j + |paths| - 1);
      Ordered(at, j + |paths| - 1, m);
      Ordered(at, m, k + i);
      assert Still(w, p, t, at(m), v) && Still(w, p, t, x, v);
    }
  }

  lemma {:induction false} SameSeen(files: seq<string>, w: World, at: Instants, k: nat, t: int)
    requires forall i :: 0 <= i < |files| ==> w(at(k + i), files[i]) == w(t, files[i])
    ensures SeenFrom(files, w, at, k) == SeenAt(files, w, t)
    decreases |files|
  {
    if files != [] {
      SameSeen(files[..|files| - 1], w, at, k, t);
    }
  }

  /** Every path is at read m as it was at instant t. */
  ghost predicate Steady(paths: seq<string>, w: World, at: Instants, t: int, m: nat) {
    forall p :: p in paths ==> w(at(m), p) == w(t, p)
  }

  lemma SamePrintIsSteady(paths: seq<string>, w: World, at: Instants, j: nat, m: nat, k: nat)
    requires 0 < |paths| && j + |paths| - 1 <= m <= k && Telling(paths, w, at(j), at(k + |paths| - 1)) && Monotone(at)
    requires PrintOf(paths, w, at, j) == PrintOf(paths, w, at, k)
    ensures Steady(paths, w, at, at(j + |paths| - 1), m)
  {
    forall p | p in paths
      ensures w(at(m), p) == w(at(j + |paths| - 1), p)
    {
      ConstantBetween(paths, w, at, j, m, k, p);
    }
  }

  lemma SteadySeen(files: seq<string>, paths: seq<string>, w: World, at: Instants, t: int, k: nat)
    requires forall i :: 0 <= i < |files| ==> files[i] in paths
    requires forall m :: k <= m <= k + |files| ==> Steady(paths, w, at, t, m)
    ensures SeenFrom(files, w, at, k) == SeenAt(files, w, t)
  {
    forall i | 0 <= i < |files|
      ensures w(at(k + i), files[i]) == w(t, files[i])
    {
      assert Steady(paths, w, at, t, k + i);
    }
    SameSeen(files, w, at, k, t);
  }

  lemma SteadySight(cfg: Config, w: World, at: Instants, t: int, k: nat)
    requires w(at(k + |cfg.files|), "") == w(t, "")
    requires forall m :: k <= m <= k + |cfg.files| ==> Steady(Paths(cfg), w, at, t, m)
    ensures SightFrom(cfg, w, at, k) == SightAt(cfg, w, t)
  {
    SteadySeen(cfg.files, Paths(cfg), w, at, t, k);
    if cfg.csv != "" {
      assert Paths(cfg)[|cfg.files|] == cfg.csv && Steady(Paths(cfg), w, at, t, k + |cfg.files|);
    }
  }

  /** When the fingerprints before and after a build agree, it saw what the files held at one instant between them. */
  lemma StableSightIsOneInstant(cfg: Config, paths: seq<string>, w: World, at: Instants, j: nat, k: nat) returns (t: int)
    requires paths == Paths(cfg) && j + |paths| <= k && Telling(paths, w, at(j), at(k + |cfg.files| + |paths|)) && Monotone(at)
    requires PrintOf(paths, w, at, j) == PrintOf(paths, w, at, k + |cfg.files| + 1)
    ensures SightFrom(cfg, w, at, k) == SightAt(cfg, w, t)
    ensures at(j) <= t <= at(k)
  {
    t := if |paths| == 0 then at(k) else at(j + |paths| - 1);
    forall m | k <= m <= k + |cfg.files|
      ensures Steady(paths, w, at, t, m)
    {
      if |paths| > 0 {
        SamePrintIsSteady(paths, w, at, j, m, k + |cfg.files| + 1);
      }
    }
    SteadySight(cfg, w, at, t, k);
    Ordered(at, j, k);
    if |paths| > 0 {
      Ordered(at, j, j + |paths| - 1);
      Ordered(at, j + |paths| - 1, k);
    }
  }

  /** A build between two equal fingerprints saw one instant, no earlier than `from` and no later than `to`. */
  ghost predicate HonestLook(cfg: Config, w: World, cur: Print, look: Look, from: int, to: int) {
    cur == look.after ==> exists t :: from <= t <= to && look.sight == SightAt(cfg, w, t)
  }

  ghost predicate Honest(cfg: Config, w: World, cur: Print, looks: seq<Look>, from: int, to: int)
    decreases |looks|
  {
    looks == [] || (HonestLook(cfg, w, cur, looks[0], from, to) && Honest(cfg, w, looks[0].after, looks[1..], from, to))
  }

  lemma LookIsHonest(cfg: Config, paths: seq<string>, w: World, at: Instants, j: nat, k: nat, from: int, to: int)
    requires paths == Paths(cfg) && Telling(paths, w, from, to) && Monotone(at) && j + |paths| <= k
    requires from <= at(j) && at(k + |cfg.files| + |paths|) <= to
    ensures HonestLook(cfg, w, PrintOf(paths, w, at, j), LookFrom(cfg, w, at, k), from, to)
  {
    if PrintOf(paths, w, at, j) == PrintOf(paths, w, at, k + |cfg.files| + 1) {
      var t := StableSightIsOneInstant(cfg, paths, w, at, j, k);
      Ordered(at, k, k + |cfg.files| + |paths|);
    }
  }

  /** One past the last read of the rounds that begin with the k-th. */
  function RoundsEnd(cfg: Config, k: nat, rounds: nat): (end: nat)
    ensures k <= end && (rounds > 0 ==> k < end)
    decreases rounds
  {
    if rounds == 0 then k else RoundsEnd(cfg, NextRound(cfg, k), rounds - 1)
  }

  lemma {:induction false} LooksAreHonest(cfg: Config, paths: seq<string>, w: World, at: Instants, j: nat, k: nat, rounds: nat, from: int, last: nat)
    requires paths == Paths(cfg) && Telling(paths, w, from, at(last)) && Monotone(at) && j + |paths| <= k && from <= at(j)
    requires RoundsEnd(cfg, k, rounds) <= last + 1
    ensures Honest(cfg, w, PrintOf(paths, w, at, j), LooksFrom(cfg, w, at, k, rounds), from, at(last))
    decreases rounds
  {
    hide Telling, Honest, HonestLook, SightFrom, PrintOf;
    if rounds == 0 {
      NoLooks(cfg, w, PrintOf(paths, w, at, j), from, at(last));
    } else {
      Ordered(at, k + |cfg.files| + |paths|, last);
      Ordered(at, j, k + |cfg.files| + 1);
      LookIsHonest(cfg, paths, w, at, j, k, from, at(last));
      LooksAreHonest(cfg, paths, w, at, k + |cfg.files| + 1, NextRound(cfg, k), rounds - 1, from, last);
      OneMoreIsHonest(cfg, w, PrintOf(paths, w, at, j), LookFrom(cfg, w, at, k), LooksFrom(cfg, w, at, NextRound(cfg, k), rounds - 1), from, at(last));
    }
  }

  lemma NoLooks(cfg: Config, w: World, cur: Print, from: int, to: int)
    ensures Honest(cfg, w, cur, [], from, to)
  {
  }

  lemma OneMoreIsHonest(cfg: Config, w: World, cur: Print, look: Look, looks: seq<Look>, from: int, to: int)
    requires HonestLook(cfg, w, cur, look, from, to) && Honest(cfg, w, look.after, looks, from, to)
    ensures Honest(cfg, w, cur, [look] + looks, from, to)
  {
    assert ([look] + looks)[1..] == looks;
  }

  /** What the files held at one instant of the span, as a snapshot. */
  ghost predicate IsOneInstant(cfg: Config, w: World, snap: Snapshot, from: int, to: int) {
    exists t, required :: from <= t <= to && Build(cfg, SightAt(cfg, w, t), required) == Some(snap)
  }

  ghost predicate Reloads(cfg: Config, w: World, s: Watch, s': Watch, from: int, to: int) {
    s' == s || IsOneInstant(cfg, w, s'.live, from, to)
  }

  lemma RoundReloads(cfg: Config, w: World, s: Watch, cur: Print, look: Look, from: int, to: int)
    requires HonestLook(cfg, w, cur, look, from, to)
    ensures var r := Round(cfg, s, cur, look); r.Some? ==> Reloads(cfg, w, s, r.value, from, to)
  {
  }

  lemma {:induction false} RetryReloads(cfg: Config, w: World, s: Watch, cur: Print, looks: seq<Look>, from: int, to: int)
    requires Honest(cfg, w, cur, looks, from, to)
    ensures Reloads(cfg, w, s, Retry(cfg, s, cur, looks), from, to)
    decreases |looks|
  {
    if looks != [] {
      RoundReloads(cfg, w, s, cur, looks[0], from, to);
      RetryReloads(cfg, w, s, looks[0].after, looks[1..], from, to);
    }
  }

  // ----- every sequence of ticks -----

  /** The tick saw the file system: its first read was the k-th. */
  ghost predicate IsTick(cfg: Config, w: World, at: Instants, tick: Tick, k: nat) {
    tick.cur == PrintOf(Paths(cfg), w, at, k) && tick.looks == LooksFrom(cfg, w, at, k + |Paths(cfg)|, |tick.looks|)
  }

  /** One past the tick's last read. */
  function TickEnd(cfg: Config, tick: Tick, k: nat): (end: nat)
    ensures k <= end && (tick.looks != [] ==> k < end)
  {
    RoundsEnd(cfg, k + |Paths(cfg)|, |tick.looks|)
  }

  /** From the tick's first read to its last no path changes untold or comes back to a fingerprint it left. */
  ghost predicate TellingTick(cfg: Config, w: World, at: Instants, tick: Tick, k: nat) {
    tick.looks != [] ==> Telling(Paths(cfg), w, at(k), at(TickEnd(cfg, tick, k) - 1))
  }

  lemma TickReloads(cfg: Config, w: World, at: Instants, s: Watch, tick: Tick, k: nat)
    requires Monotone(at) && IsTick(cfg, w, at, tick, k) && TellingTick(cfg, w, at, tick, k)
    ensures var s' := Ticked(cfg, s, tick); s' == s || (tick.looks != [] && Reloads(cfg, w, s, s', at(k), at(TickEnd(cfg, tick, k) - 1)))
  {
    if tick.looks != [] {
      var last := TickEnd(cfg, tick, k) - 1;
      LooksAreHonest(cfg, Paths(cfg), w, at, k, k + |Paths(cfg)|, |tick.looks|, at(k), last);
      RetryReloads(cfg, w, s, tick.cur, tick.looks, at(k), at(last));
    }
  }

  /** The snapshot is what the files held at one instant during one of the ticks. */
  ghost predicate FromOneTick(cfg: Config, w: World, at: Instants, snap: Snapshot, ticks: seq<Tick>, starts: seq<nat>)
    requires |starts| == |ticks|
  {
    exists i :: 0 <= i < |ticks| && ticks[i].looks != [] && IsOneInstant(cfg, w, snap, at(starts[i]), at(TickEnd(cfg, ticks[i], starts[i]) - 1))
  }

  /**
   Over every sequence of ticks against a file system that changes between any two reads, if during a tick no path changes
   with its fingerprint kept or comes back to a fingerprint it left, the live snapshot is the one it was or what the files
   held at a single instant between the first and the last read of one tick. Between ticks anything may happen.
   */
  lemma {:induction false} TicksCommitOneInstant(cfg: Config, w: World, at: Instants, s: Watch, ticks: seq<Tick>, starts: seq<nat>)
    requires Monotone(at) && |starts| == |ticks|
    requires forall i :: 0 <= i < |ticks| ==> IsTick(cfg, w, at, ticks[i], starts[i]) && TellingTick(cfg, w, at, ticks[i], starts[i])
    ensures var s' := AfterTicks(cfg, s, ticks); s'.live == s.live || FromOneTick(cfg, w, at, s'.live, ticks, starts)
    decreases |ticks|
  {
    hide FromOneTick, IsOneInstant, IsTick, TellingTick, TickEnd, Ticked;
    if ticks != [] {
      TickReloads(cfg, w, at, s, ticks[0], starts[0]);
      var s1 := Ticked(cfg, s, ticks[0]);
      TicksCommitOneInstant(cfg, w, at, s1, ticks[1..], starts[1..]);
      FirstOrLater(cfg, w, at, AfterTicks(cfg, s1, ticks[1..]).live, ticks, starts);
    }
  }

  lemma FirstOrLater(cfg: Config, w: World, at: Instants, snap: Snapshot, ticks: seq<Tick>, starts: seq<nat>)
    requires |starts| == |ticks| && ticks != []
    ensures FromOneTick(cfg, w, at, snap, ticks[1..], starts[1..]) ==> FromOneTick(cfg, w, at, snap, ticks, starts)
    ensures ticks[0].looks != [] && IsOneInstant(cfg, w, snap, at(starts[0]), at(TickEnd(cfg, ticks[0], starts[0]) - 1)) ==>
              FromOneTick(cfg, w, at, snap, ticks, starts)
  {
    hide IsOneInstant, TickEnd;
    if FromOneTick(cfg, w, at, snap, ticks[1..], starts[1..]) {
      var i :| 0 <= i < |ticks[1..]| && ticks[1..][i].looks != []
               && IsOneInstant(cfg, w, snap, at(starts[1..][i]), at(TickEnd(cfg, ticks[1..][i], starts[1..][i]) - 1));
      assert ticks[i + 1] == ticks[1..][i] && starts[i + 1] == starts[1..][i];
    }
  }

  /** No path that was required is given up. */
  ghost predicate StillRequires(s: Watch, s': Watch) {
    Required(s.last) <= Required(s'.last)
  }

  lemma RoundKeepsRequired(cfg: Config, s: Watch, cur: Print, look: Look)
    ensures var r := Round(cfg, s, cur, look); r.Some? ==> StillRequires(s, r.value)
  {
    if !Vanished(Required(s.last), look.after) && cur == look.after {
      forall p | p in Required(s.last)
        ensures p in Required(Some(cur))
      {
        assert p in cur && cur[p].present;
      }
    }
  }

  lemma {:induction false} RetryKeepsRequired(cfg: Config, s: Watch, cur: Print, looks: seq<Look>)
    ensures StillRequires(s, Retry(cfg, s, cur, looks))
    decreases |looks|
  {
    if looks != [] {
      RoundKeepsRequired(cfg, s, cur, looks[0]);
      RetryKeepsRequired(cfg, s, looks[0].after, looks[1..]);
    }
  }

  lemma TickKeepsRequired(cfg: Config, s: Watch, tick: Tick)
    ensures StillRequires(s, Ticked(cfg, s, tick))
  {
    RetryKeepsRequired(cfg, s, tick.cur, tick.looks);
  }

  /** The required paths never shrink, whatever the ticks see. */
  lemma {:induction false} RequiredNeverShrinks(cfg: Config, s: Watch, ticks: seq<Tick>)
    ensures StillRequires(s, AfterTicks(cfg, s, ticks))
    decreases |ticks|
  {
    if ticks != [] {
      TickKeepsRequired(cfg, s, ticks[0]);
      RequiredNeverShrinks(cfg, Ticked(cfg, s, ticks[0]), ticks[1..]);
    }
  }

  // ----- exactly when a tick commits -----

  /** The fingerprint that round i compares with. */
  function CurAt(cur: Print, looks: seq<Look>, i: nat): Print
    requires i <= |looks|
  {
    if i == 0 then cur else looks[i - 1].after
  }

  /** Round i builds and finds nothing vanished. */
  predicate Builds(cfg: Config, required: set<string>, look: Look) {
    Build(cfg, look.sight, required).Some? && !Vanished(required, look.after)
  }

  /** Round i builds from a stable read, after rounds that all built and all saw a change. */
  predicate StableAt(cfg: Config, required: set<string>, cur: Print, looks: seq<Look>, i: nat) {
    && i < |looks| && Builds(cfg, required, looks[i]) && looks[i].after == CurAt(cur, looks, i)
    && forall j :: 0 <= j < i ==> Builds(cfg, required, looks[j]) && looks[j].after != CurAt(cur, looks, j)
  }

  lemma StableShifts(cfg: Config, required: set<string>, cur: Print, looks: seq<Look>, i: nat)
    requires looks != [] && i < |looks| - 1 && Builds(cfg, required, looks[0]) && looks[0].after != cur
    ensures StableAt(cfg, required, looks[0].after, looks[1..], i) <==> StableAt(cfg, required, cur, looks, i + 1)
  {
    var rest := looks[1..];
    assert forall j :: 0 <= j <= i ==> rest[j] == looks[j + 1] && CurAt(looks[0].after, rest, j) == CurAt(cur, looks, j + 1);
    if StableAt(cfg, required, cur, looks, i + 1) {
      forall j | 0 <= j < i
        ensures Builds(cfg, required, rest[j]) && rest[j].after != CurAt(looks[0].after, rest, j)
      {
        assert looks[j + 1] == rest[j];
      }
    }
    if StableAt(cfg, required, looks[0].after, rest, i) {
      forall j | 0 <= j < i + 1
        ensures Builds(cfg, required, looks[j]) && looks[j].after != CurAt(cur, looks, j)
      {
        assert j > 0 ==> looks[j] == rest[j - 1];
      }
    }
  }

  lemma {:induction false} RetryCommits(cfg: Config, s: Watch, cur: Print, looks: seq<Look>, i: nat)
    requires StableAt(cfg, Required(s.last), cur, looks, i)
    ensures Retry(cfg, s, cur, looks) == Watch(Build(cfg, looks[i].sight, Required(s.last)).value, Some(looks[i].after))
    decreases |looks|
  {
    hide Build, Vanished, Required;
    if i > 0 {
      assert CurAt(cur, looks, 0) == cur;
      StableShifts(cfg, Required(s.last), cur, looks, i - 1);
      RetryCommits(cfg, s, looks[0].after, looks[1..], i - 1);
    }
  }

  lemma {:induction false} RetryKeeps(cfg: Config, s: Watch, cur: Print, looks: seq<Look>)
    requires forall i: nat :: !StableAt(cfg, Required(s.last), cur, looks, i)
    ensures Retry(cfg, s, cur, looks) == s
    decreases |looks|
  {
    hide Build, Vanished, Required;
    if looks != [] && Builds(cfg, Required(s.last), looks[0]) {
      assert !StableAt(cfg, Required(s.last), cur, looks, 0);
      forall i: nat
        ensures !StableAt(cfg, Required(s.last), looks[0].after, looks[1..], i)
      {
        if i < |looks| - 1 {
          StableShifts(cfg, Required(s.last), cur, looks, i);
        }
      }
      RetryKeeps(cfg, s, looks[0].after, looks[1..]);
    }
  }

  /** The tick's first fingerprint differs from the baseline, nothing has vanished, and round i builds from a stable read. */
  predicate Commits(cfg: Config, s: Watch, tick: Tick, i: nat) {
    s.last != Some(tick.cur) && !Vanished(Required(s.last), tick.cur) && StableAt(cfg, Required(s.last), tick.cur, tick.looks, i)
  }

  /**
   Exactly when a tick changes anything: round i commits what it built, with its fingerprint as the new baseline, if and
   only if the first fingerprint differs from the baseline with nothing vanished, round i builds, finds nothing vanished
   and no change, and every round before it built, found nothing vanished and found a change. Any other tick, however
   its rounds fail, leaves snapshot and baseline as they were.
   */
  lemma TickCommitsExactly(cfg: Config, s: Watch, tick: Tick)
    ensures forall i: nat :: Commits(cfg, s, tick, i) ==>
              Ticked(cfg, s, tick) == Watch(Build(cfg, tick.looks[i].sight, Required(s.last)).value, Some(tick.looks[i].after))
    ensures (forall i: nat :: !Commits(cfg, s, tick, i)) ==> Ticked(cfg, s, tick) == s
  {
    forall i: nat | Commits(cfg, s, tick, i)
      ensures Ticked(cfg, s, tick) == Watch(Build(cfg, tick.looks[i].sight, Required(s.last)).value, Some(tick.looks[i].after))
    {
      RetryCommits(cfg, s, tick.cur, tick.looks, i);
    }
    if (forall i: nat :: !Commits(cfg, s, tick, i)) && s.last != Some(tick.cur) && !Vanished(Required(s.last), tick.cur) {
      forall i: nat
        ensures !StableAt(cfg, Required(s.last), tick.cur, tick.looks, i)
      {
        assert !Commits(cfg, s, tick, i);
      }
      RetryKeeps(cfg, s, tick.cur, tick.looks);
    }
  }

  // ----- a change that the fingerprint does not tell -----

  /** Two files that always hold the same text, which changes from "x" to "y" at instant 3 with size and time kept. */
  function TwinText(t: int): string {
    if t < 3 then "x" else "y"
  }

  const TWINS := Config(["a", "b"], "", (text: string) => false, (csv: string, texts: seq<string>) => false)

  function TwinWorld(): World {
    (t: int, p: string) => if p == "a" || p == "b" then Data(0, TwinText(t)) else Missing
  }

  function Clock(): Instants {
    (k: nat) => k
  }

  lemma TwinPrint(k: nat)
    ensures PrintOf(Paths(TWINS), TwinWorld(), Clock(), k) == map["a" := FileState(true, 0, 1), "b" := FileState(true, 0, 1)]
  {
    var paths := Paths(TWINS);
    assert paths[..1] == ["a"] && ["a"][..0] == [];
    assert PrintOf(["a"], TwinWorld(), Clock(), k) == map["a" := FileState(true, 0, 1)];
  }

  lemma TwinBuild(x: string, y: string)
    ensures Build(TWINS, Sight([Data(0, x), Data(0, y)], Missing), {}) == Some(Snapshot([x, y], None))
  {
    var files, seen := TWINS.files, [Data(0, x), Data(0, y)];
    assert files[..1] == ["a"] && ["a"][..0] == [] && seen[..1] == [Data(0, x)] && [Data(0, x)][..0] == [];
    assert Gather([], [], {}) == Some([]) && [] + [x] == [x];
    assert Gather(["a"], [Data(0, x)], {}) == Some([x]);
    assert [x] + [y] == [x, y];
  }

  lemma TwinSight(k: nat)
    ensures SightFrom(TWINS, TwinWorld(), Clock(), k) == Sight([Data(0, TwinText(k)), Data(0, TwinText(k + 1))], Missing)
  {
    var files := TWINS.files;
    assert files[..1] == ["a"] && ["a"][..0] == [];
    assert SeenFrom(["a"], TwinWorld(), Clock(), k) == [Data(0, TwinText(k))];
  }

  lemma TwinsAt(t: int)
    ensures Build(TWINS, SightAt(TWINS, TwinWorld(), t), {}) == Some(Snapshot([TwinText(t), TwinText(t)], None))
  {
    var files := TWINS.files;
    assert files[..1] == ["a"] && ["a"][..0] == [];
    assert SeenAt(["a"], TwinWorld(), t) == [Data(0, TwinText(t))];
    assert SightAt(TWINS, TwinWorld(), t) == Sight([Data(0, TwinText(t)), Data(0, TwinText(t))], Missing);
    TwinBuild(TwinText(t), TwinText(t));
  }

  lemma TwinTick(s: Watch, cur: Print, looks: seq<Look>)
    requires s.last.None? && |looks| > 0 && looks[0] == Look(Sight([Data(0, "x"), Data(0, "y")], Missing), cur)
    ensures Ticked(TWINS, s, Tick(cur, looks)).live == Snapshot(["x", "y"], None)
  {
    TwinBuild("x", "y");
  }

  /**
   Without the assumption a tick can commit what the files held at no instant: here one text of each kind, though
   both files hold the same text at every instant.
   */
  lemma UntoldChangeIsTorn(rounds: nat)
    requires rounds > 0
    ensures var s, tick := Watch(Snapshot([], None), None), TickFrom(TWINS, TwinWorld(), Clock(), 0, rounds);
            && Monotone(Clock())
            && Ticked(TWINS, s, tick).live == Snapshot(["x", "y"], None)
            && forall t :: Build(TWINS, SightAt(TWINS, TwinWorld(), t), {}) != Some(Snapshot(["x", "y"], None))
  {
    var s, tick := Watch(Snapshot([], None), None), TickFrom(TWINS, TwinWorld(), Clock(), 0, rounds);
    TwinPrint(0);
    TwinPrint(5);
    TwinSight(2);
    TwinTick(s, tick.cur, tick.looks);
    forall t
      ensures Build(TWINS, SightAt(TWINS, TwinWorld(), t), {}) != Some(Snapshot(["x", "y"], None))
    {
      TwinsAt(t);
    }
  }

  // ----- a path that comes back -----

  /** One file that is there only at instant 2 and one that is there only at instant 3. */
  function FlickerWorld(): World {
    (t: int, p: string) => if p == "a" && t == 2 then Data(0, "x") else if p == "b" && t == 3 then Data(0, "y") else Missing
  }

  lemma FlickerPrint(k: nat)
    requires k == 0 || k >= 4
    ensures PrintOf(Paths(TWINS), FlickerWorld(), Clock(), k) == map["a" := FileState(false, 0, 0), "b" := FileState(false, 0, 0)]
  {
    var paths := Paths(TWINS);
    assert paths[..1] == ["a"] && ["a"][..0] == [];
    assert PrintOf(["a"], FlickerWorld(), Clock(), k) == map["a" := FileState(false, 0, 0)];
  }

  lemma FlickerSight()
    ensures SightFrom(TWINS, FlickerWorld(), Clock(), 2) == Sight([Data(0, "x"), Data(0, "y")], Missing)
  {
    var files := TWINS.files;
    assert files[..1] == ["a"] && ["a"][..0] == [];
    assert SeenFrom(["a"], FlickerWorld(), Clock(), 2) == [Data(0, "x")];
  }

  /** The files hold at most one text at any instant. */
  lemma FlickerAt(t: int, required: set<string>)
    ensures var snap := Build(TWINS, SightAt(TWINS, FlickerWorld(), t), required); snap.Some? ==> |snap.value.texts| <= 1
  {
    var files, a, b := TWINS.files, FlickerWorld()(t, "a"), FlickerWorld()(t, "b");
    assert files[..1] == ["a"] && ["a"][..0] == [];
    assert SeenAt(["a"], FlickerWorld(), t) == [a];
    assert SeenAt(files, FlickerWorld(), t) == [a, b] && [a, b][..1] == [a] && [a][..0] == [];
    assert Gather([], [], required) == Some([]);
    assert Gather(["a"], [a], required).Some? ==> Gather(["a"], [a], required).value == if a.Data? then [a.text] else [];
    assert a.Missing? || b.Missing?;
  }

  /**
   It is not enough that equal fingerprints mean equal contents: files that come and go while they are read give the
   fingerprint before and after a build that saw both, although no instant had both.
   */
  lemma FlickerIsTorn(rounds: nat)
    requires rounds > 0
    ensures var w, s, tick := FlickerWorld(), Watch(Snapshot([], None), None), TickFrom(TWINS, FlickerWorld(), Clock(), 0, rounds);
            && (forall p, t, v :: StateOf(w(t, p)) == StateOf(w(v, p)) ==> w(t, p) == w(v, p))
            && Ticked(TWINS, s, tick).live == Snapshot(["x", "y"], None)
            && forall t, required :: Build(TWINS, SightAt(TWINS, w, t), required) != Some(Snapshot(["x", "y"], None))
  {
    var w, s, tick := FlickerWorld(), Watch(Snapshot([], None), None), TickFrom(TWINS, FlickerWorld(), Clock(), 0, rounds);
    FlickerPrint(0);
    FlickerPrint(5);
    FlickerSight();
    TwinTick(s, tick.cur, tick.looks);
    forall t, required
      ensures Build(TWINS, SightAt(TWINS, w, t), required) != Some(Snapshot(["x", "y"], None))
    {
      FlickerAt(t, required);
    }
  }
}
