/** What a crash leaves of an unfinished file, and what becomes of it afterwards. */
module SpoolRecovery {
  import opened Basics
  import opened Spool
  import opened SpoolFiles

  // ----- what a crash leaves -----

  /** The last write to the file put its whole line down and was neither accounted nor undone. */
  predicate Unsettled(cfg: Config, f: File) {
    f.cut == |cfg.line(f.of)|
  }

  /** The events whose whole lines are in the file: those written to it, and one whose write was not settled. */
  function Shown(cfg: Config, f: File): seq<nat> {
    if Unsettled(cfg, f) then f.lines + [f.of] else f.lines
  }

  lemma ShownIsTheData(cfg: Config, gen: nat, f: File)
    requires WellFormed(cfg) && FileInv(cfg, gen, f)
    ensures f.data[..LastLineEnd(f.data)] == Lines(cfg, Shown(cfg, f))
    ensures Lines(cfg, f.lines) != Lines(cfg, f.lines + [f.of])
  {
    RecoveryKeepsTheLines(cfg, f);
    LinesAppend(cfg, f.lines, f.of);
    assert IsLine(cfg.line(f.of));
    assert |Lines(cfg, f.lines + [f.of])| > |Lines(cfg, f.lines)|;
  }

  /**
   Crash safety: whatever step a run ends with, the longest complete-line prefix of every file is exactly the lines
   written to it, and one more if and only if the last write put its whole line down and was neither accounted nor undone.
   */
  lemma CrashLeavesWholeLines(cfg: Config, run: seq<Action>, i: nat)
    requires WellFormed(cfg) && Legal(cfg, INIT, run) && i < |Exec(cfg, INIT, run).files|
    ensures var f := Exec(cfg, INIT, run).files[i];
            var kept := f.data[..LastLineEnd(f.data)];
            && (kept == Lines(cfg, f.lines) || kept == Lines(cfg, f.lines + [f.of]))
            && (kept == Lines(cfg, f.lines + [f.of]) <==> Unsettled(cfg, f))
  {
    Reachable(cfg, run);
    var t := Exec(cfg, INIT, run);
    assert FileInv(cfg, t.gen, t.files[i]);
    ShownIsTheData(cfg, t.gen, t.files[i]);
  }

  // ----- what becomes of it -----

  /** A file that held d when its process died is still as it was, or cut to whole lines, made ready, uploaded or, if empty, removed. */
  ghost predicate Follows(s: Sys, i: nat, d: seq<int>, lines: seq<nat>) {
    && i < |s.files| && s.files[i].maker < s.gen && s.files[i].lines == lines
    && Keeps(s.files[i].place, s.files[i].data, d)
    && (s.mode.Recovering? && s.mode.next == i && s.mode.rec.Cut? ==> LastLineEnd(d) > 0 && s.files[i].data == d[..LastLineEnd(d)])
  }

  predicate Keeps(place: Place, data: seq<int>, d: seq<int>) {
    var k := LastLineEnd(d);
    match place
    case Part => data == d || data == d[..k]
    case Ready => k > 0 && data == d[..k]
    case Gone(uploaded) => if uploaded then k > 0 && data == d[..k] else k == 0
  }

  lemma CutAgain(d: seq<int>)
    ensures LastLineEnd(d[..LastLineEnd(d)]) == LastLineEnd(d)
  {
    LongestCompletePrefix(d);
  }

  lemma RecoveryFollowsItsFile(s: Sys, a: Action, d: seq<int>, lines: seq<nat>)
    requires RecInv(s) && RecEnabled(s, a) && Follows(s, s.mode.next, d, lines)
    ensures Follows(RecoveryStep(s, a), s.mode.next, d, lines)
  {
    hide LastLineEnd;
    CutAgain(d);
    if a.RecTruncate? {
      assert d[..LastLineEnd(d)][..LastLineEnd(d)] == d[..LastLineEnd(d)];
    }
  }

  lemma RecoveryFollows(s: Sys, a: Action, i: nat, d: seq<int>, lines: seq<nat>)
    requires RecInv(s) && RecEnabled(s, a) && Follows(s, i, d, lines)
    ensures Follows(RecoveryStep(s, a), i, d, lines)
  {
    hide LastLineEnd, Keeps;
    if s.mode.next == i {
      RecoveryFollowsItsFile(s, a, d, lines);
    }
  }

  lemma WriteFollows(cfg: Config, s: Sys, a: Action, i: nat, d: seq<int>, lines: seq<nat>)
    requires ActiveInv(cfg, s) && s.mode.Running? && WriteEnabled(cfg, s, a) && Follows(s, i, d, lines)
    ensures Follows(WriteStep(cfg, s, a), i, d, lines)
  {
    hide LastLineEnd, Keeps;
  }

  lemma UploadFollows(s: Sys, a: Action, i: nat, d: seq<int>, lines: seq<nat>)
    requires UpInv(s) && s.mode.Running? && UploadEnabled(s, a) && Follows(s, i, d, lines)
    ensures Follows(UploadStep(s, a), i, d, lines)
  {
    hide LastLineEnd, IsListing;
  }

  lemma OthersFollow(cfg: Config, s: Sys, a: Action, i: nat, d: seq<int>, lines: seq<nat>)
    requires Follows(s, i, d, lines)
    ensures OtherEnabled(s, a) ==> Follows(OtherStep(cfg, s, a), i, d, lines)
    ensures PrepareEnabled(s, a) && s.mode.Running? ==> Follows(PrepareStep(cfg, s, a), i, d, lines)
    ensures OpenEnabled(s, a) && s.mode.Running? ==> Follows(OpenStep(s, a), i, d, lines)
  {
    hide LastLineEnd, Keeps, Exists;
  }

  lemma StepFollows(cfg: Config, s: Sys, a: Action, i: nat, d: seq<int>, lines: seq<nat>)
    requires Inv(cfg, s) && Enabled(cfg, s, a) && Follows(s, i, d, lines)
    ensures Follows(Step(cfg, s, a), i, d, lines)
  {
    hide RecoveryStep, OtherStep, PrepareStep, OpenStep, WriteStep, UploadStep, Follows, FilesInv, ActiveInv, RecInv, UpInv, NamesInv;
    if RecEnabled(s, a) {
      RecoveryFollows(s, a, i, d, lines);
    } else if OtherEnabled(s, a) || PrepareEnabled(s, a) || OpenEnabled(s, a) {
      OthersFollow(cfg, s, a, i, d, lines);
    } else if WriteEnabled(cfg, s, a) {
      WriteFollows(cfg, s, a, i, d, lines);
    } else {
      UploadFollows(s, a, i, d, lines);
    }
  }

  lemma {:induction false} RunFollows(cfg: Config, s: Sys, run: seq<Action>, i: nat, d: seq<int>, lines: seq<nat>)
    requires WellFormed(cfg) && Inv(cfg, s) && Legal(cfg, s, run) && Follows(s, i, d, lines)
    ensures Inv(cfg, Exec(cfg, s, run)) && Follows(Exec(cfg, s, run), i, d, lines)
    decreases |run|
  {
    hide Inv, Follows, Step, Enabled;
    if run != [] {
      StepFollows(cfg, s, run[0], i, d, lines);
      StepKeepsInv(cfg, s, run[0]);
      RunFollows(cfg, Step(cfg, s, run[0]), run[1..], i, d, lines);
    }
  }

  /**
   Recovery, in every run: of an unfinished file whose process died, whatever fails, however often the start dies again,
   and whatever runs later, the file is left as it was or cut after its longest complete-line prefix; it is ready only as
   exactly that prefix; and it goes only after exactly that prefix was uploaded, or when the prefix is empty.
   */
  lemma RecoveryKeepsLongestPrefix(cfg: Config, run: seq<Action>, later: seq<Action>, i: nat)
    requires WellFormed(cfg) && Legal(cfg, INIT, run)
    requires var s := Exec(cfg, INIT, run); s.mode.Down? && i < |s.files| && s.files[i].place == Part && Legal(cfg, s, later)
    ensures var s := Exec(cfg, INIT, run);
            var d := s.files[i].data;
            var prefix := d[..LastLineEnd(d)];
            && i < |Exec(cfg, s, later).files|
            && var f := Exec(cfg, s, later).files[i];
               && f.lines == s.files[i].lines
               && (f.place.Part? ==> f.data == d || f.data == prefix)
               && (f.place.Ready? ==> f.data == prefix != [])
               && (f.place.Gone? ==> if prefix == [] then f.place == Gone(false) else f.stored == Some(prefix))
  {
    Reachable(cfg, run);
    var s := Exec(cfg, INIT, run);
    assert CountedInv(s, i);
    RunFollows(cfg, s, later, i, s.files[i].data, s.files[i].lines);
    var t := Exec(cfg, s, later);
    assert FileInv(cfg, t.gen, t.files[i]);
  }

  // ----- a line whose event is lost -----

  ghost predicate Reaches(cfg: Config, s: Sys) {
    exists run :: Legal(cfg, INIT, run) && Exec(cfg, INIT, run) == s
  }

  lemma {:induction false} OneMore(cfg: Config, s: Sys, run: seq<Action>, a: Action)
    requires Legal(cfg, s, run) && Enabled(cfg, Exec(cfg, s, run), a)
    ensures Legal(cfg, s, run + [a]) && Exec(cfg, s, run + [a]) == Step(cfg, Exec(cfg, s, run), a)
    decreases |run|
  {
    hide Step, Enabled;
    if run == [] {
      assert run + [a] == [a] && [a][1..] == [];
    } else {
      OneMore(cfg, Step(cfg, s, run[0]), run[1..], a);
      assert (run + [a])[1..] == run[1..] + [a];
    }
  }

  lemma ReachStep(cfg: Config, s: Sys, a: Action, t: Sys)
    requires Reaches(cfg, s) && Enabled(cfg, s, a) && t == Step(cfg, s, a)
    ensures Reaches(cfg, t)
  {
    hide Step, Enabled;
    var run :| Legal(cfg, INIT, run) && Exec(cfg, INIT, run) == s;
    OneMore(cfg, INIT, run, a);
  }

  const RUNNING := INIT.(mode := Running)

  lemma Starts(cfg: Config)
    ensures Reaches(cfg, RUNNING)
  {
    assert Legal(cfg, INIT, []) && Exec(cfg, INIT, []) == INIT;
    ReachStep(cfg, INIT, Boot(""), INIT.(mode := Recovering(0, Scan)));
    ReachStep(cfg, INIT.(mode := Recovering(0, Scan)), RecDone, RUNNING);
  }

  const IN_HAND := RUNNING.(fate := [InHand])

  lemma Takes(cfg: Config)
    requires cfg.queue >= 1
    ensures Reaches(cfg, IN_HAND.(pc := Checking(0, 0)))
  {
    hide Reaches;
    Starts(cfg);
    var s1 := RUNNING.(fate := [Queued], queue := [0]);
    ReachStep(cfg, RUNNING, Submit, s1);
    var s2 := IN_HAND.(pc := Has(0));
    assert s1.queue[1..] == [];
    ReachStep(cfg, s1, Take, s2);
    ReachStep(cfg, s2, Clock(0), IN_HAND.(pc := Checking(0, 0)));
  }

  const EMPTY_FILE := File(Name(0, ""), [], Part, [], 0, 0, 1, 1, None)
  const OPENED := IN_HAND.(files := [EMPTY_FILE], active := Some(Active(0, 0, 0)), lastStart := Some(0))

  lemma Opens(cfg: Config)
    requires cfg.queue >= 1 && |cfg.line(0)| <= cfg.maxBytes
    ensures Reaches(cfg, OPENED.(pc := Writing(0)))
  {
    hide Reaches;
    Takes(cfg);
    var s1 := IN_HAND.(pc := Naming(0, 0, 0, 0));
    ReachStep(cfg, IN_HAND.(pc := Checking(0, 0)), CheckCap, s1);
    var s2 := IN_HAND.(pc := Creating(0, 0, 0, 0));
    ReachStep(cfg, s1, Lstat(true), s2);
    ReachStep(cfg, s2, Create(true), OPENED.(pc := Writing(0)));
  }

  /** The directory after a crash between the write and its accounting. */
  function Crashed(cfg: Config): Sys {
    INIT.(gen := 2, fate := [Lost], files := [EMPTY_FILE.(data := cfg.line(0), cut := |cfg.line(0)|)])
  }

  lemma Crashes(cfg: Config)
    requires cfg.queue >= 1 && |cfg.line(0)| <= cfg.maxBytes
    ensures Reaches(cfg, Crashed(cfg))
  {
    hide Reaches;
    Opens(cfg);
    var n := |cfg.line(0)|;
    assert cfg.line(0)[..n] == cfg.line(0) && [] + cfg.line(0) == cfg.line(0);
    var s1 := OPENED.(files := [EMPTY_FILE.(data := cfg.line(0), cut := n)], pc := Wrote(0, n, true));
    ReachStep(cfg, OPENED.(pc := Writing(0)), Write(n, true), s1);
    ReachStep(cfg, s1, Crash, Crashed(cfg));
  }

  /**
   An event that is lost in a crash, and was never counted as written, can still be recovered: the crash fell between the
   write of its line and the accounting. Recovery makes the file ready with the line in it.
   */
  lemma LostEventIsRecovered(cfg: Config)
    requires WellFormed(cfg) && cfg.queue >= 1 && |cfg.line(0)| <= cfg.maxBytes
    ensures exists s :: Reaches(cfg, s) && s.fate == [Lost] && |s.files| == 1 && s.files[0].place == Ready && s.files[0].data == cfg.line(0)
  {
    hide Reaches;
    Crashes(cfg);
    var s, n := Crashed(cfg), |cfg.line(0)|;
    assert IsLine(cfg.line(0));
    var s1 := s.(mode := Recovering(0, Scan));
    ReachStep(cfg, s, Boot(""), s1);
    var s2 := s.(mode := Recovering(0, Keep(n)));
    ReachStep(cfg, s1, RecRead(true), s2);
    var s3 := s.(mode := Recovering(0, Renamed(n)), files := [s.files[0].(place := Ready)]);
    ReachStep(cfg, s2, RecRename(true), s3);
  }
}
