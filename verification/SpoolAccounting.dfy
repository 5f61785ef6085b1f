/** The spool's byte counter, its cap, the fate of every event, and the order of uploads. */
module SpoolAccounting {
  import opened Basics
  import opened Spool
  import opened SpoolFiles

  // ----- the byte counter -----

  /** The bytes a file adds to the directory as this process counts it. */
  function Weight(f: File, gen: nat): nat {
    if f.tracked == gen && !f.place.Gone? then |f.data| else 0
  }

  function Total(files: seq<File>, gen: nat): nat {
    if files == [] then 0 else Total(files[..|files| - 1], gen) + Weight(files[|files| - 1], gen)
  }

  lemma {:induction false} TotalUpdate(files: seq<File>, gen: nat, i: nat, f: File)
    requires i < |files|
    ensures Total(files[i := f], gen) == Total(files, gen) - Weight(files[i], gen) + Weight(f, gen)
    decreases |files|
  {
    var n := |files| - 1;
    if i == n {
      assert files[i := f][..n] == files[..n];
    } else {
      TotalUpdate(files[..n], gen, i, f);
      assert files[i := f][..n] == files[..n][i := f];
    }
  }

  lemma TotalAppend(files: seq<File>, gen: nat, f: File)
    ensures Total(files + [f], gen) == Total(files, gen) + Weight(f, gen)
  {
    assert (files + [f])[..|files|] == files;
  }

  lemma {:induction false} NothingCounted(files: seq<File>, gen: nat)
    requires forall i :: 0 <= i < |files| ==> files[i].tracked < gen
    ensures Total(files, gen) == 0
    decreases |files|
  {
    if files != [] {
      NothingCounted(files[..|files| - 1], gen);
    }
  }

  /** Bytes written and not yet added to the counter. */
  function NotAdded(s: Sys): nat {
    if s.pc.Wrote? then s.pc.n else 0
  }

  /** Bytes removed and not yet taken off the counter. */
  function NotTakenOff(s: Sys): nat {
    if s.up.Freed? then s.up.size else 0
  }

  ghost predicate SumInv(s: Sys) {
    && Total(s.files, s.gen) == s.counter + NotAdded(s) - NotTakenOff(s)
    && (s.mode.Down? ==> s.counter == 0)
  }

  ghost predicate CapInv(cfg: Config, s: Sys) {
    && (s.mode.Running? ==> s.counter <= Max(cfg.maxBytes, s.recovered))
    && (s.pc.Naming? || s.pc.Creating? || s.pc.Writing? ==> s.counter + |cfg.line(s.pc.ev)| <= cfg.maxBytes)
    && (s.pc.Wrote? ==> s.counter + s.pc.n <= cfg.maxBytes)
  }

  /** One file of weight w becomes one of weight w'. */
  lemma SumMoves(s: Sys, t: Sys, i: nat)
    requires SumInv(s) && i < |s.files| && |t.files| == |s.files| && t.files == s.files[i := t.files[i]] && t.gen == s.gen
    requires t.counter + NotAdded(t) - NotTakenOff(t) == s.counter + NotAdded(s) - NotTakenOff(s) - Weight(s.files[i], s.gen) + Weight(t.files[i], s.gen)
    requires t.mode.Down? ==> t.counter == 0
    ensures SumInv(t)
  {
    TotalUpdate(s.files, s.gen, i, t.files[i]);
  }

  lemma RecoveryKeepsSum(cfg: Config, s: Sys, a: Action)
    requires RecInv(s) && SumInv(s) && RecEnabled(s, a) && CountedInv(s, s.mode.next)
    ensures SumInv(RecoveryStep(s, a))
  {
    hide SumInv, LastLineEnd;
    SumMoves(s, RecoveryStep(s, a), s.mode.next);
  }

  lemma PrepareKeepsSum(cfg: Config, s: Sys, a: Action)
    requires SumInv(s) && s.mode.Running? && PrepareEnabled(s, a)
    ensures SumInv(PrepareStep(cfg, s, a))
  {
    hide PrepareStep, Total;
    PrepareLeavesFiles(cfg, s, a);
  }

  /** What opening a file does to what is counted. */
  lemma OpenLeaves(s: Sys, a: Action)
    requires OpenEnabled(s, a)
    ensures var t := OpenStep(s, a);
            && (t.files == s.files || (s.pc.Creating? && t.files == s.files + [NewFile(s)]))
            && t.counter == s.counter && t.up == s.up && t.mode == s.mode && t.gen == s.gen && !t.pc.Wrote? && !s.pc.Wrote?
  {
    hide Exists;
  }

  lemma OpenKeepsSum(s: Sys, a: Action)
    requires SumInv(s) && OpenEnabled(s, a)
    ensures SumInv(OpenStep(s, a))
  {
    hide OpenStep;
    OpenLeaves(s, a);
    if s.pc.Creating? {
      TotalAppend(s.files, s.gen, NewFile(s));
    }
  }

  lemma WriteKeepsSum(cfg: Config, s: Sys, a: Action)
    requires ActiveInv(cfg, s) && SumInv(s) && s.mode.Running? && WriteEnabled(cfg, s, a)
    ensures SumInv(WriteStep(cfg, s, a))
  {
    if s.active.Some? {
      ActiveKeepsSum(cfg, s, a);
    }
  }

  lemma ActiveKeepsSum(cfg: Config, s: Sys, a: Action)
    requires ActiveInv(cfg, s) && SumInv(s) && s.mode.Running? && WriteEnabled(cfg, s, a) && s.active.Some?
    ensures SumInv(WriteStep(cfg, s, a))
  {
    hide SumInv, Total, Lines;
    SumMoves(s, WriteStep(cfg, s, a), s.active.value.file);
  }

  lemma UploadKeepsSum(s: Sys, a: Action)
    requires UpInv(s) && SumInv(s) && s.mode.Running? && UploadEnabled(s, a)
    requires a.Remove? ==> CountedInv(s, s.up.file)
    ensures SumInv(UploadStep(s, a))
  {
    hide IsListing, Total;
    if a.Put? || a.Remove? {
      FileKeepsSum(s, a);
    }
  }

  lemma FileKeepsSum(s: Sys, a: Action)
    requires UpInv(s) && SumInv(s) && s.mode.Running? && UploadEnabled(s, a) && (a.Put? || a.Remove?)
    requires a.Remove? ==> CountedInv(s, s.up.file)
    ensures SumInv(UploadStep(s, a))
  {
    hide IsListing, SumInv, Total, Queue;
    SumMoves(s, UploadStep(s, a), s.up.file);
  }

  lemma OtherKeepsSum(cfg: Config, s: Sys, a: Action)
    requires FilesInv(cfg, s) && SumInv(s) && OtherEnabled(s, a)
    ensures SumInv(OtherStep(cfg, s, a))
  {
    hide Total, CountedInv, Content;
    if a.Crash? {
      forall i | 0 <= i < |s.files|
        ensures s.files[i].tracked < s.gen + 1
      {
        assert FileInv(cfg, s.gen, s.files[i]);
      }
      NothingCounted(s.files, s.gen + 1);
    }
  }

  lemma StepKeepsSum(cfg: Config, s: Sys, a: Action)
    requires Inv(cfg, s) && SumInv(s) && Enabled(cfg, s, a)
    ensures SumInv(Step(cfg, s, a))
  {
    hide RecoveryStep, OtherStep, PrepareStep, OpenStep, WriteStep, UploadStep, SumInv, ActiveInv, RecInv, FileInv, NamesInv;
    if RecEnabled(s, a) {
      assert CountedInv(s, s.mode.next);
      RecoveryKeepsSum(cfg, s, a);
    } else if OtherEnabled(s, a) {
      OtherKeepsSum(cfg, s, a);
    } else if PrepareEnabled(s, a) {
      PrepareKeepsSum(cfg, s, a);
    } else if OpenEnabled(s, a) {
      OpenKeepsSum(s, a);
    } else if WriteEnabled(cfg, s, a) {
      WriteKeepsSum(cfg, s, a);
    } else {
      assert a.Remove? ==> CountedInv(s, s.up.file);
      UploadKeepsSum(s, a);
    }
  }

  lemma PrepareKeepsCap(cfg: Config, s: Sys, a: Action)
    requires CapInv(cfg, s) && PrepareEnabled(s, a)
    ensures CapInv(cfg, PrepareStep(cfg, s, a))
  {
  }

  lemma OpenKeepsCap(cfg: Config, s: Sys, a: Action)
    requires CapInv(cfg, s) && OpenEnabled(s, a)
    ensures CapInv(cfg, OpenStep(s, a))
  {
    hide Exists;
  }

  lemma WriteKeepsCap(cfg: Config, s: Sys, a: Action)
    requires CapInv(cfg, s) && s.mode.Running? && WriteEnabled(cfg, s, a)
    ensures CapInv(cfg, WriteStep(cfg, s, a))
  {
  }

  lemma FilesKeepCap(cfg: Config, s: Sys, a: Action)
    requires RecInv(s) && CapInv(cfg, s)
    ensures RecEnabled(s, a) ==> CapInv(cfg, RecoveryStep(s, a))
    ensures UploadEnabled(s, a) ==> CapInv(cfg, UploadStep(s, a))
    ensures OtherEnabled(s, a) ==> CapInv(cfg, OtherStep(cfg, s, a))
  {
    hide LastLineEnd, IsListing;
  }

  lemma StepKeepsCap(cfg: Config, s: Sys, a: Action)
    requires RecInv(s) && CapInv(cfg, s) && Enabled(cfg, s, a)
    ensures CapInv(cfg, Step(cfg, s, a))
  {
    hide RecoveryStep, OtherStep, PrepareStep, OpenStep, WriteStep, UploadStep, CapInv;
    FilesKeepCap(cfg, s, a);
    if PrepareEnabled(s, a) {
      PrepareKeepsCap(cfg, s, a);
    } else if OpenEnabled(s, a) {
      OpenKeepsCap(cfg, s, a);
    } else if WriteEnabled(cfg, s, a) && s.mode.Running? {
      WriteKeepsCap(cfg, s, a);
    }
  }

  lemma {:induction false} RunKeepsCounter(cfg: Config, s: Sys, run: seq<Action>)
    requires WellFormed(cfg) && Inv(cfg, s) && SumInv(s) && CapInv(cfg, s) && Legal(cfg, s, run)
    ensures SumInv(Exec(cfg, s, run)) && CapInv(cfg, Exec(cfg, s, run))
    decreases |run|
  {
    if run != [] {
      StepKeepsInv(cfg, s, run[0]);
      StepKeepsSum(cfg, s, run[0]);
      StepKeepsCap(cfg, s, run[0]);
      RunKeepsCounter(cfg, Step(cfg, s, run[0]), run[1..]);
    }
  }

  /**
   The counter is the total size of the tracked files, but for one write not yet added and one removal not yet
   taken off; both the counter and the bytes on disk stay within the larger of the cap and what the start found.
   */
  lemma CounterIsTheTrackedSize(cfg: Config, run: seq<Action>)
    requires WellFormed(cfg) && Legal(cfg, INIT, run) && Exec(cfg, INIT, run).mode.Running?
    ensures var t := Exec(cfg, INIT, run);
            && Total(t.files, t.gen) == t.counter + NotAdded(t) - NotTakenOff(t)
            && t.counter <= Max(cfg.maxBytes, t.recovered)
            && Total(t.files, t.gen) <= Max(cfg.maxBytes, t.recovered)
  {
    RunKeepsCounter(cfg, INIT, run);
  }

  // ----- the order of uploads -----

  ghost predicate Ascending(s: Sys, i: nat, j: nat)
    requires i < |s.files| && j < |s.files|
  {
    s.files[i].maker == s.gen && s.files[j].maker == s.gen ==> s.files[i].name.start < s.files[j].name.start
  }

  ghost predicate OrderInv(s: Sys) {
    && (forall i, j :: 0 <= i < j < |s.files| ==> Ascending(s, i, j))
    && (forall i :: 0 <= i < |s.files| && s.files[i].maker == s.gen ==> s.lastStart.Some? && s.files[i].name.start <= s.lastStart.value)
    && (s.pc.Naming? || s.pc.Creating? ==> s.lastStart.Some? ==> s.lastStart.value < s.pc.start)
  }

  ghost predicate Sorted(s: Sys, todo: seq<nat>) {
    && (forall p :: 0 <= p < |todo| ==> todo[p] < |s.files|)
    && (forall p, q :: 0 <= p < q < |todo| ==> todo[p] != todo[q] && s.files[todo[p]].name.start <= s.files[todo[q]].name.start)
  }

  /** Files keep their index, their name and their maker. */
  ghost predicate SameNames(s: Sys, t: Sys) {
    |s.files| <= |t.files| && forall i :: 0 <= i < |s.files| ==> t.files[i].name == s.files[i].name && t.files[i].maker == s.files[i].maker
  }

  lemma PrepareKeepsNames(cfg: Config, s: Sys, a: Action)
    requires PrepareEnabled(s, a)
    ensures SameNames(s, PrepareStep(cfg, s, a))
  {
    hide PrepareStep;
    PrepareLeavesFiles(cfg, s, a);
  }

  lemma OpenKeepsMakers(s: Sys, a: Action)
    requires OpenEnabled(s, a)
    ensures SameNames(s, OpenStep(s, a))
  {
    hide OpenStep;
    OpenLeaves(s, a);
  }

  lemma WriteKeepsMakers(cfg: Config, s: Sys, a: Action)
    requires WriteEnabled(cfg, s, a)
    ensures SameNames(s, WriteStep(cfg, s, a))
  {
  }

  lemma FilesKeepMakers(cfg: Config, s: Sys, a: Action)
    ensures RecEnabled(s, a) ==> SameNames(s, RecoveryStep(s, a))
    ensures UploadEnabled(s, a) ==> SameNames(s, UploadStep(s, a))
    ensures OtherEnabled(s, a) ==> SameNames(s, OtherStep(cfg, s, a))
  {
    hide LastLineEnd, IsListing;
  }

  lemma StepKeepsNames(cfg: Config, s: Sys, a: Action)
    requires Enabled(cfg, s, a)
    ensures SameNames(s, Step(cfg, s, a))
  {
    hide RecoveryStep, OtherStep, PrepareStep, OpenStep, WriteStep, UploadStep, SameNames;
    FilesKeepMakers(cfg, s, a);
    if PrepareEnabled(s, a) {
      PrepareKeepsNames(cfg, s, a);
    } else if OpenEnabled(s, a) {
      OpenKeepsMakers(s, a);
    } else if WriteEnabled(cfg, s, a) {
      WriteKeepsMakers(cfg, s, a);
    }
  }

  /** The files the pass has still to see, the one at hand first. */
  function Remaining(up: Up): seq<nat> {
    match up
    case Waiting => []
    case Pass(todo) => todo
    case Sending(f, todo) => [f] + todo
    case Sent(f, todo) => [f] + todo
    case Freed(_, todo) => todo
  }

  lemma OpenKeepsOrder(cfg: Config, s: Sys, a: Action)
    requires OrderInv(s) && OpenEnabled(s, a)
    ensures OrderInv(OpenStep(s, a))
  {
    hide Exists;
    var t := OpenStep(s, a);
    assert t.gen == s.gen;
    assert (t.files == s.files && t.lastStart == s.lastStart) || (t.files == s.files + [NewFile(s)] && t.lastStart == Some(s.pc.start));
    forall i, j | 0 <= i < j < |t.files|
      ensures Ascending(t, i, j)
    {
      assert j < |s.files| ==> Ascending(s, i, j);
    }
  }

  /** A step that makes no file and starts no process keeps the order of the names. */
  lemma SameOrder(s: Sys, t: Sys)
    requires OrderInv(s) && SameNames(s, t) && |t.files| == |s.files| && t.gen == s.gen && t.lastStart == s.lastStart
    requires t.pc.Naming? || t.pc.Creating? ==> t.lastStart.Some? ==> t.lastStart.value < t.pc.start
    ensures OrderInv(t)
  {
    forall i, j | 0 <= i < j < |t.files|
      ensures Ascending(t, i, j)
    {
      assert Ascending(s, i, j);
    }
  }

  lemma PrepareKeepsOrder(cfg: Config, s: Sys, a: Action)
    requires OrderInv(s) && PrepareEnabled(s, a)
    ensures OrderInv(PrepareStep(cfg, s, a))
  {
    PrepareLeavesFiles(cfg, s, a);
    assert PrepareStep(cfg, s, a).pc.Naming? ==> a.CheckCap?;
    SameOrder(s, PrepareStep(cfg, s, a));
  }

  lemma OtherKeepsOrder(cfg: Config, s: Sys, a: Action)
    requires Inv(cfg, s) && OrderInv(s) && OtherEnabled(s, a)
    ensures OrderInv(OtherStep(cfg, s, a))
  {
    var t := OtherStep(cfg, s, a);
    if a.Crash? {
      forall i | 0 <= i < |t.files|
        ensures t.files[i].maker < t.gen
      {
        assert FileInv(cfg, s.gen, s.files[i]);
      }
    } else {
      SameOrder(s, t);
    }
  }

  lemma RecoveryKeepsOrder(cfg: Config, s: Sys, a: Action)
    requires OrderInv(s) && RecInv(s) && RecEnabled(s, a)
    ensures OrderInv(RecoveryStep(s, a))
  {
    hide OrderInv, LastLineEnd, SameNames;
    FilesKeepMakers(cfg, s, a);
    SameOrder(s, RecoveryStep(s, a));
  }

  lemma UploadKeepsOrder(cfg: Config, s: Sys, a: Action)
    requires OrderInv(s) && UploadEnabled(s, a)
    ensures OrderInv(UploadStep(s, a))
  {
    hide IsListing, SameNames;
    FilesKeepMakers(cfg, s, a);
    SameOrder(s, UploadStep(s, a));
  }

  lemma WriteKeepsOrder(cfg: Config, s: Sys, a: Action)
    requires OrderInv(s) && WriteEnabled(cfg, s, a)
    ensures OrderInv(WriteStep(cfg, s, a))
  {
    hide SameNames;
    WriteKeepsMakers(cfg, s, a);
    SameOrder(s, WriteStep(cfg, s, a));
  }

  lemma StepKeepsOrder(cfg: Config, s: Sys, a: Action)
    requires Inv(cfg, s) && OrderInv(s) && Enabled(cfg, s, a)
    ensures OrderInv(Step(cfg, s, a))
  {
    hide RecoveryStep, OtherStep, PrepareStep, OpenStep, WriteStep, UploadStep, OrderInv, RecInv, FilesInv, UpInv, NamesInv;
    if RecEnabled(s, a) {
      RecoveryKeepsOrder(cfg, s, a);
    } else if OtherEnabled(s, a) {
      OtherKeepsOrder(cfg, s, a);
    } else if PrepareEnabled(s, a) {
      PrepareKeepsOrder(cfg, s, a);
    } else if OpenEnabled(s, a) {
      OpenKeepsOrder(cfg, s, a);
    } else if WriteEnabled(cfg, s, a) {
      WriteKeepsOrder(cfg, s, a);
    } else {
      UploadKeepsOrder(cfg, s, a);
    }
  }

  /** A step takes files off the front of the pass, ends it, or starts one with a listing. */
  predicate Shrinks(s: Sys, a: Action, t: Sys) {
    var r, r' := Remaining(s.up), Remaining(t.up);
    r' == r || r' == [] || (|r| > 0 && r' == r[1..]) || (a.List? && r' == a.order && IsListing(s.files, a.order))
  }

  lemma WriterLeavesPass(cfg: Config, s: Sys, a: Action)
    ensures PrepareEnabled(s, a) ==> PrepareStep(cfg, s, a).up == s.up
    ensures OpenEnabled(s, a) ==> OpenStep(s, a).up == s.up
    ensures WriteEnabled(cfg, s, a) ==> WriteStep(cfg, s, a).up == s.up
  {
    hide Exists;
  }

  lemma UploadShrinks(s: Sys, a: Action)
    requires UploadEnabled(s, a)
    ensures Shrinks(s, a, UploadStep(s, a))
  {
    if s.up.Sending? || s.up.Sent? {
      assert Remaining(s.up)[1..] == s.up.todo;
    }
    if a.OpenFile? {
      assert s.up.todo == [s.up.todo[0]] + s.up.todo[1..];
    }
  }

  lemma StepShrinks(cfg: Config, s: Sys, a: Action)
    requires Enabled(cfg, s, a)
    ensures Shrinks(s, a, Step(cfg, s, a))
  {
    hide PrepareStep, OpenStep, WriteStep, IsListing, LastLineEnd;
    WriterLeavesPass(cfg, s, a);
    if UploadEnabled(s, a) {
      UploadShrinks(s, a);
    }
  }

  lemma ShrinkingKeepsSorted(s: Sys, a: Action, t: Sys)
    requires Sorted(s, Remaining(s.up)) && Shrinks(s, a, t) && SameNames(s, t)
    ensures Sorted(t, Remaining(t.up))
  {
  }

  lemma {:induction false} RunKeepsOrder(cfg: Config, s: Sys, run: seq<Action>)
    requires WellFormed(cfg) && Inv(cfg, s) && OrderInv(s) && Sorted(s, Remaining(s.up)) && Legal(cfg, s, run)
    ensures var t := Exec(cfg, s, run); OrderInv(t) && Sorted(t, Remaining(t.up))
    decreases |run|
  {
    if run != [] {
      StepKeepsInv(cfg, s, run[0]);
      StepKeepsOrder(cfg, s, run[0]);
      StepShrinks(cfg, s, run[0]);
      StepKeepsNames(cfg, s, run[0]);
      ShrinkingKeepsSorted(s, run[0], Step(cfg, s, run[0]));
      RunKeepsOrder(cfg, Step(cfg, s, run[0]), run[1..]);
    }
  }

  predicate Own(t: Sys, i: nat) {
    i < |t.files| && t.files[i].maker == t.gen
  }

  predicate InCreationOrder(t: Sys, order: seq<nat>) {
    forall p, q :: 0 <= p < q < |order| && Own(t, order[p]) && Own(t, order[q]) ==> order[p] < order[q]
  }

  lemma SortedIsCreationOrder(t: Sys, order: seq<nat>)
    requires OrderInv(t) && Sorted(t, order)
    ensures InCreationOrder(t, order)
  {
    forall p, q | 0 <= p < q < |order| && Own(t, order[p]) && Own(t, order[q])
      ensures order[p] < order[q]
    {
      assert order[q] < order[p] ==> Ascending(t, order[q], order[p]);
    }
  }

  /** Each upload pass sees the files of the running process in the order it created them. */
  lemma PassFollowsCreation(cfg: Config, run: seq<Action>)
    requires WellFormed(cfg) && Legal(cfg, INIT, run)
    ensures var t := Exec(cfg, INIT, run); InCreationOrder(t, Remaining(t.up))
  {
    RunKeepsOrder(cfg, INIT, run);
    var t := Exec(cfg, INIT, run);
    SortedIsCreationOrder(t, Remaining(t.up));
  }
}
