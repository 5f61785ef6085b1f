/** The watcher object and its loops (internal/ban/watch.go, internal/ban/engine.go), proved against BanWatch. */
module BanWatcher {
  import opened Basics
  import opened BanWatch

  lemma {:induction false} FailsForGood(files: seq<string>, seen: seq<Disk>, required: set<string>, i: nat)
    requires |seen| == |files| && i <= |files| && Gather(files[..i], seen[..i], required).None?
    ensures Gather(files, seen, required).None?
    decreases |files|
  {
    if i < |files| {
      var n := |files| - 1;
      assert files[..n][..i] == files[..i] && seen[..n][..i] == seen[..i];
      FailsForGood(files[..n], seen[..n], required, i);
    } else {
      assert files[..i] == files && seen[..i] == seen;
    }
  }

  lemma {:induction false} SeenOne(files: seq<string>, w: World, at: Instants, k: nat, i: nat)
    requires i < |files|
    ensures SeenFrom(files, w, at, k)[i] == w(at(k + i), files[i])
    decreases |files|
  {
    if i < |files| - 1 {
      SeenOne(files[..|files| - 1], w, at, k, i);
    }
  }

  lemma SubmapIsEqual<K, V>(a: map<K, V>, b: map<K, V>)
    requires |a| == |b| && forall p :: p in a ==> p in b && a[p] == b[p]
    ensures a == b
  {
    assert a.Keys <= b.Keys;
    assert |a.Keys| == |a| && |b.Keys| == |b|;
    SubsetOfSameSize(a.Keys, b.Keys);
  }

  lemma {:induction false} SubsetOfSameSize<K>(a: set<K>, b: set<K>)
    requires a <= b && |a| == |b|
    ensures a == b
    decreases a
  {
    if a != {} {
      var x :| x in a;
      SubsetOfSameSize(a - {x}, b - {x});
    } else {
      assert |b| == 0;
    }
  }

  method SameStates(a: Print, b: Print) returns (same: bool)
    ensures same <==> a == b
  {
    if |a| != |b| {
      return false;
    }
    var left := a.Keys;
    while left != {}
      invariant left <= a.Keys && forall p :: p in a && p !in left ==> p in b && a[p] == b[p]
      decreases |left|
    {
      var p :| p in left;
      if p !in b || a[p] != b[p] {
        return false;
      }
      left := left - {p};
    }
    SubmapIsEqual(a, b);
    return true;
  }

  method FindVanished(last: Option<Print>, states: Print) returns (found: bool)
    ensures found <==> Vanished(Required(last), states)
  {
    if last.None? {
      return false;
    }
    var left := last.value.Keys;
    while left != {}
      invariant left <= last.value.Keys
      invariant forall p :: p in Required(last) && p !in left ==> p in states && states[p].present
      decreases |left|
    {
      var p :| p in left;
      if last.value[p].present && !(p in states && states[p].present) {
        assert p in Required(last);
        return true;
      }
      left := left - {p};
    }
    return false;
  }

  method Fingerprint(paths: seq<string>, w: World, at: Instants, k: nat) returns (states: Print)
    ensures states == PrintOf(paths, w, at, k)
  {
    states := map[];
    var i := 0;
    while i < |paths|
      invariant 0 <= i <= |paths| && states == PrintOf(paths[..i], w, at, k)
    {
      assert paths[..i + 1][..i] == paths[..i];
      if paths[i] != "" {
        states := states[paths[i] := StateOf(w(at(k + i), paths[i]))];
      }
      i := i + 1;
    }
    assert paths[..i] == paths;
  }

  /** build's loop: the files in order, the first error ends it. */
  method ReadFiles(files: seq<string>, w: World, at: Instants, k: nat, required: set<string>) returns (texts: Option<seq<string>>)
    ensures texts == Gather(files, SeenFrom(files, w, at, k), required)
  {
    ghost var seen := SeenFrom(files, w, at, k);
    var all: seq<string> := [];
    var i := 0;
    while i < |files|
      invariant 0 <= i <= |files| && Gather(files[..i], seen[..i], required) == Some(all)
    {
      SeenOne(files, w, at, k, i);
      assert files[..i + 1][..i] == files[..i] && seen[..i + 1][..i] == seen[..i];
      var d := w(at(k + i), files[i]);
      if Fails(d) || (d.Missing? && files[i] in required) {
        FailsForGood(files, seen, required, i + 1);
        return None;
      }
      if d.Data? {
        all := all + [d.text];
      }
      i := i + 1;
    }
    assert files[..i] == files && seen[..i] == seen;
    return Some(all);
  }

  method BuildNow(cfg: Config, w: World, at: Instants, k: nat, required: set<string>) returns (snap: Option<Snapshot>)
    ensures snap == Build(cfg, SightFrom(cfg, w, at, k), required)
  {
    var texts := ReadFiles(cfg.files, w, at, k, required);
    if texts.None? {
      return None;
    }
    return Finish(cfg, texts.value, w(at(k + |cfg.files|), cfg.csv), required);
  }

  /** What is left to decide once a round has looked. */
  method Decide(cfg: Config, s: Watch, cur: Print, snap: Option<Snapshot>, after: Print, ghost look: Look) returns (r: Option<Watch>)
    requires snap == Build(cfg, look.sight, Required(s.last)) && after == look.after
    ensures r == Round(cfg, s, cur, look)
  {
    if snap.None? {
      return Some(s);
    }
    var gone := FindVanished(s.last, after);
    if gone {
      return Some(s);
    }
    var same := SameStates(cur, after);
    return if same then Some(Watch(snap.value, Some(cur))) else None;
  }

  /** One round of the loop in tick: None asks for another. */
  method RoundNow(cfg: Config, w: World, at: Instants, k: nat, s: Watch, cur: Print, ghost look: Look) returns (r: Option<Watch>, after: Print)
    requires look == LookFrom(cfg, w, at, k)
    ensures r == Round(cfg, s, cur, look) && after == look.after
  {
    var snap := BuildNow(cfg, w, at, k, Required(s.last));
    after := Fingerprint(Paths(cfg), w, at, k + |cfg.files| + 1);
    r := Decide(cfg, s, cur, snap, after, look);
  }

  lemma FirstLook(cfg: Config, w: World, at: Instants, k: nat, rounds: nat)
    requires rounds > 0
    ensures LooksFrom(cfg, w, at, k, rounds)[0] == LookFrom(cfg, w, at, k)
    ensures LooksFrom(cfg, w, at, k, rounds)[1..] == LooksFrom(cfg, w, at, NextRound(cfg, k), rounds - 1)
  {
  }

  lemma RetryOne(cfg: Config, s: Watch, cur: Print, looks: seq<Look>)
    requires looks != []
    ensures Retry(cfg, s, cur, looks) == (var r := Round(cfg, s, cur, looks[0]); if r.Some? then r.value else Retry(cfg, s, looks[0].after, looks[1..]))
  {
  }

  ghost predicate Ends(cfg: Config, s: Watch, cur: Print, looks: seq<Look>, ends: Watch) {
    Retry(cfg, s, cur, looks) == ends
  }

  method Advance(cfg: Config, w: World, at: Instants, k: nat, s: Watch, cur: Print, ghost left: nat, ghost looks: seq<Look>, ghost ends: Watch)
    returns (r: Option<Watch>, after: Print)
    requires left > 0 && looks == LooksFrom(cfg, w, at, k, left) && Ends(cfg, s, cur, looks, ends)
    ensures r.Some? ==> ends == r.value
    ensures r.None? ==> Ends(cfg, s, after, looks[1..], ends)
    ensures looks[1..] == LooksFrom(cfg, w, at, NextRound(cfg, k), left - 1)
  {
    FirstLook(cfg, w, at, k, left);
    RetryOne(cfg, s, cur, looks);
    r, after := RoundNow(cfg, w, at, k, s, cur, looks[0]);
  }

  /** The bounded loop of tick: `ends` is the state in which the remaining rounds end. */
  method TryRounds(cfg: Config, w: World, at: Instants, k: nat, s: Watch, first: Print, rounds: nat, ghost looks: seq<Look>) returns (s': Watch)
    requires looks == LooksFrom(cfg, w, at, k, rounds)
    ensures s' == Retry(cfg, s, first, looks)
  {
    hide Round, LookFrom;
    var cur, m: nat, left: nat := first, k, rounds;
    ghost var rest, ends := looks, Retry(cfg, s, first, looks);
    while left > 0
      invariant rest == LooksFrom(cfg, w, at, m, left) && Ends(cfg, s, cur, rest, ends)
      decreases left
    {
      var r, after := Advance(cfg, w, at, m, s, cur, left, rest, ends);
      if r.Some? {
        return r.value;
      }
      cur, m, left, rest := after, NextRound(cfg, m), left - 1, rest[1..];
    }
    return s;
  }

  /** tick, once it has its first fingerprint: reload only on a change, never over a vanished file, and only from a stable read. */
  method TickAfter(cfg: Config, w: World, at: Instants, k: nat, s: Watch, rounds: nat, cur: Print, ghost looks: seq<Look>) returns (s': Watch)
    requires looks == LooksFrom(cfg, w, at, k, rounds)
    ensures s' == Ticked(cfg, s, Tick(cur, looks))
  {
    if s.last.Some? {
      var same := SameStates(s.last.value, cur);
      if same {
        return s;
      }
    }
    var gone := FindVanished(s.last, cur);
    if gone {
      return s;
    }
    s' := TryRounds(cfg, w, at, k, s, cur, rounds, looks);
  }

  method TickNow(cfg: Config, w: World, at: Instants, k: nat, s: Watch, rounds: nat, ghost tick: Tick) returns (s': Watch)
    requires tick == TickFrom(cfg, w, at, k, rounds)
    ensures s' == Ticked(cfg, s, tick)
  {
    hide Ticked, LookFrom;
    var cur := Fingerprint(Paths(cfg), w, at, k);
    s' := TickAfter(cfg, w, at, k + |Paths(cfg)|, s, rounds, cur, tick.looks);
  }

  method LoadNow(cfg: Config, w: World, at: Instants, k: nat, s: Watch) returns (s': Watch)
    ensures s' == Loaded(cfg, s, PrintOf(Paths(cfg), w, at, k), SightFrom(cfg, w, at, k + |Paths(cfg)|))
  {
    var cur := Fingerprint(Paths(cfg), w, at, k);
    var snap := BuildNow(cfg, w, at, k + |Paths(cfg)|, {});
    return if snap.None? then s else Watch(snap.value, Some(cur));
  }

  class Watcher {
    const cfg: Config
    var live: Snapshot
    var last: Option<Print>

    ghost function View(): Watch
      reads this
    {
      Watch(live, last)
    }

    constructor (cfg: Config)
      ensures this.cfg == cfg && View() == Watch(Snapshot([], None), None)
    {
      this.cfg := cfg;
      live, last := Snapshot([], None), None;
    }

    /** Initial: one load without the guard against torn reads; a failed load leaves the watcher as it was. */
    method Initial(w: World, at: Instants, k: nat)
      modifies this
      ensures View() == Loaded(cfg, old(View()), PrintOf(Paths(cfg), w, at, k), SightFrom(cfg, w, at, k + |Paths(cfg)|))
    {
      var s := LoadNow(cfg, w, at, k, Watch(live, last));
      live, last := s.live, s.last;
    }

    method Poll(w: World, at: Instants, k: nat)
      modifies this
      ensures View() == Ticked(cfg, old(View()), TickFrom(cfg, w, at, k, TRIES))
    {
      var s := TickNow(cfg, w, at, k, Watch(live, last), TRIES, TickFrom(cfg, w, at, k, TRIES));
      live, last := s.live, s.last;
    }
  }
}
