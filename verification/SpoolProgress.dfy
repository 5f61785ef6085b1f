/**
 What the spool achieves when no step fails: an event that has room is written, a ready file is uploaded and removed, and
 files stay within their size and their window.
 */
module SpoolProgress {
  import opened Basics
  import opened Spool
  import opened SpoolFiles
  import E = SpoolEvents

  ghost predicate Reaches(cfg: Config, s: Sys, t: Sys) {
    exists run :: Legal(cfg, s, run) && Exec(cfg, s, run) == t
  }

  lemma {:induction false} OneMore(cfg: Config, s: Sys, run: seq<Action>, a: Action)
    requires Legal(cfg, s, run) && Enabled(cfg, Exec(cfg, s, run), a)
    ensures Legal(cfg, s, run + [a]) && Exec(cfg, s, run + [a]) == Step(cfg, Exec(cfg, s, run), a)
    decreases |run|
  {
    hide Step, Enabled;
    if run == [] {
      assert run + [a] == [a] && [a][1..] == [];
    } else {
      OneMore(cfg, Step(cfg, s, run[0]), run[1..], a);
      assert (run + [a])[1..] == run[1..] + [a];
    }
  }

  lemma ReachThen(cfg: Config, s0: Sys, s: Sys, a: Action, t: Sys)
    requires Reaches(cfg, s0, s) && Enabled(cfg, s, a) && t == Step(cfg, s, a)
    ensures Reaches(cfg, s0, t)
  {
    hide Step, Enabled;
    var run :| Legal(cfg, s0, run) && Exec(cfg, s0, run) == s;
    OneMore(cfg, s0, run, a);
  }

  lemma ReachSelf(cfg: Config, s: Sys)
    ensures Reaches(cfg, s, s)
  {
    assert Legal(cfg, s, []) && Exec(cfg, s, []) == s;
  }

  // ----- an event is queued -----

  /** A submitted event is queued exactly when the spool is open and the queue has room, and else dropped and counted at once. */
  lemma EventIsQueuedExactly(cfg: Config, s: Sys)
    requires Enabled(cfg, s, Submit)
    ensures var t, e := Step(cfg, s, Submit), |s.fate|;
            && |t.fate| == e + 1 && (t.fate[e].Queued? <==> !s.closed && |s.queue| < cfg.queue)
            && (t.fate[e].Queued? ==> t.queue == s.queue + [e] && t.drops == s.drops)
            && (!t.fate[e].Queued? ==> t.fate[e].Dropped? && t.queue == s.queue && t.drops == s.drops + 1)
  {
  }

  // ----- an event with room is written -----

  /** The event's line is the last of the file, whole, and the event is accounted there. */
  ghost predicate IsLast(cfg: Config, s: Sys, e: nat, i: nat) {
    && e < |s.fate| && i < |s.files| && |s.files[i].lines| > 0 && s.files[i].lines[|s.files[i].lines| - 1] == e
    && s.fate[e] == Written(i, |s.files[i].lines| - 1) && s.files[i].data == Lines(cfg, s.files[i].lines)
  }

  /** The writer has decided to write the event to its open file. */
  ghost predicate AboutToWrite(s: Sys, e: nat) {
    s.mode.Running? && s.pc == Writing(e) && HasFile(s) && e < |s.fate|
  }

  lemma LineIsWritten(cfg: Config, s0: Sys, s: Sys, e: nat)
    requires Reaches(cfg, s0, s) && AboutToWrite(s, e) && s.files[s.active.value.file].data == Lines(cfg, s.files[s.active.value.file].lines)
    ensures exists u :: Reaches(cfg, s0, u) && IsLast(cfg, u, e, s.active.value.file)
  {
    hide Reaches;
    var i, n := s.active.value.file, |cfg.line(e)|;
    var f := s.files[i];
    var s1 := WriteStep(cfg, s, Write(n, true));
    ReachThen(cfg, s0, s, Write(n, true), s1);
    var s2 := WriteStep(cfg, s1, Account);
    ReachThen(cfg, s0, s1, Account, s2);
    LinesAppend(cfg, f.lines, e);
    assert cfg.line(e)[..n] == cfg.line(e);
    assert IsLast(cfg, s2, e, i);
  }

  /** The writer has taken the first queued event and read the clock. */
  ghost predicate MayTake(s: Sys) {
    s.mode.Running? && s.pc.Idle? && s.queue != [] && s.queue[0] < |s.fate| && !s.abandon
  }

  lemma EventIsTaken(cfg: Config, s: Sys, now: int)
    requires MayTake(s) && (s.active.Some? ==> InWindow(s.active.value, now))
    ensures var e := s.queue[0]; Reaches(cfg, s, s.(queue := s.queue[1..], fate := s.fate[e := InHand], pc := Checking(e, now)))
  {
    hide Reaches;
    var e := s.queue[0];
    ReachSelf(cfg, s);
    var s1 := s.(queue := s.queue[1..], fate := s.fate[e := InHand], pc := Has(e));
    ReachThen(cfg, s, s, Take, s1);
    ReachThen(cfg, s, s1, Clock(now), s1.(pc := Checking(e, now)));
  }

  lemma OpenFileIsWritten(cfg: Config, s: Sys, now: int)
    requires MayTake(s) && HasFile(s) && InWindow(s.active.value, now) && s.counter + |cfg.line(s.queue[0])| <= cfg.maxBytes
    requires s.files[s.active.value.file].data == Lines(cfg, s.files[s.active.value.file].lines)
    ensures exists u :: Reaches(cfg, s, u) && IsLast(cfg, u, s.queue[0], s.active.value.file)
  {
    hide Reaches;
    var e := s.queue[0];
    EventIsTaken(cfg, s, now);
    var s1 := s.(queue := s.queue[1..], fate := s.fate[e := InHand], pc := Checking(e, now));
    var s2 := s1.(pc := Writing(e));
    ReachThen(cfg, s, s1, CheckCap, s2);
    LineIsWritten(cfg, s, s2, e);
  }

  /** The first name a new file is tried under; the others follow, a nanosecond apart. */
  function FirstStart(s: Sys, now: int): int {
    if s.lastStart.Some? && now <= s.lastStart.value then s.lastStart.value + 1 else now
  }

  predicate Taken(files: seq<File>, node: string, start: int) {
    Exists(files, Name(start, node), Ready) || Exists(files, Name(start, node), Part)
  }

  /** Of the names from `start` on the first n are taken and the next is free, and there are tries left for it. */
  predicate FreeAfter(s: Sys, start: int, n: nat, tries: nat) {
    tries + n < NAME_TRIES && !Taken(s.files, s.node, start + n) && forall x :: start <= x < start + n ==> Taken(s.files, s.node, x)
  }

  /** The state after the name `start` has been created. */
  function OpenedFrom(s: Sys, start: int): Sys
    requires s.pc.Naming?
  {
    var creating := s.(pc := Creating(s.pc.ev, s.pc.now, start, 0));
    s.(files := s.files + [NewFile(creating)], active := Some(Active(|s.files|, 0, s.pc.now - s.pc.now % WINDOW)), lastStart := Some(start),
       pc := Writing(s.pc.ev))
  }

  /** A name that is taken is passed over. */
  lemma NameIsPassed(cfg: Config, s0: Sys, s: Sys)
    requires Reaches(cfg, s0, s) && s.mode.Running? && s.pc.Naming? && s.pc.tries < NAME_TRIES && s.pc.ev < |s.fate| && Taken(s.files, s.node, s.pc.start)
    ensures Reaches(cfg, s0, s.(pc := Naming(s.pc.ev, s.pc.now, s.pc.start + 1, s.pc.tries + 1)))
  {
    hide Reaches, Exists;
    var next := s.(pc := Naming(s.pc.ev, s.pc.now, s.pc.start + 1, s.pc.tries + 1));
    if Exists(s.files, Name(s.pc.start, s.node), Ready) {
      ReachThen(cfg, s0, s, Lstat(true), next);
    } else {
      var creating := s.(pc := Creating(s.pc.ev, s.pc.now, s.pc.start, s.pc.tries));
      ReachThen(cfg, s0, s, Lstat(true), creating);
      ReachThen(cfg, s0, creating, Create(true), next);
    }
  }

  lemma FreeNameIsOpened(cfg: Config, s0: Sys, s: Sys)
    requires Reaches(cfg, s0, s) && s.mode.Running? && s.pc.Naming? && s.pc.tries < NAME_TRIES && s.pc.ev < |s.fate| && !Taken(s.files, s.node, s.pc.start)
    ensures Reaches(cfg, s0, OpenedFrom(s, s.pc.start))
  {
    hide Reaches, Exists;
    var creating := s.(pc := Creating(s.pc.ev, s.pc.now, s.pc.start, s.pc.tries));
    ReachThen(cfg, s0, s, Lstat(true), creating);
    ReachThen(cfg, s0, creating, Create(true), OpenedFrom(s, s.pc.start));
  }

  lemma {:induction false} FileIsOpened(cfg: Config, s0: Sys, s: Sys, n: nat)
    requires Reaches(cfg, s0, s) && s.mode.Running? && s.pc.Naming? && s.pc.ev < |s.fate| && FreeAfter(s, s.pc.start, n, s.pc.tries)
    ensures Reaches(cfg, s0, OpenedFrom(s, s.pc.start + n))
    decreases n
  {
    hide Reaches, Exists, Taken;
    if n == 0 {
      FreeNameIsOpened(cfg, s0, s);
    } else {
      var next := s.(pc := Naming(s.pc.ev, s.pc.now, s.pc.start + 1, s.pc.tries + 1));
      assert Taken(s.files, s.node, s.pc.start);
      NameIsPassed(cfg, s0, s);
      FileIsOpened(cfg, s0, next, n - 1);
      assert OpenedFrom(next, next.pc.start + (n - 1)) == OpenedFrom(s, s.pc.start + n);
    }
  }

  lemma NewFileIsWritten(cfg: Config, s: Sys, now: int, n: nat)
    requires MayTake(s) && s.active.None? && s.counter + |cfg.line(s.queue[0])| <= cfg.maxBytes && FreeAfter(s, FirstStart(s, now), n, 0)
    ensures exists u :: Reaches(cfg, s, u) && IsLast(cfg, u, s.queue[0], |s.files|)
  {
    hide Reaches, Exists;
    var e, start := s.queue[0], FirstStart(s, now);
    EventIsTaken(cfg, s, now);
    var s1 := s.(queue := s.queue[1..], fate := s.fate[e := InHand], pc := Checking(e, now));
    var s2 := s1.(pc := Naming(e, now, start, 0));
    ReachThen(cfg, s, s1, CheckCap, s2);
    FileIsOpened(cfg, s, s2, n);
    LineIsWritten(cfg, s, OpenedFrom(s2, start + n), e);
  }

  /**
   From every reachable state with an idle writer and a queued event: if the event's line fits under the cap, and the open
   file is of the current window, or there is none and one of the names to be tried for a new one is free, the event can be
   written.
   */
  lemma EventWithRoomCanBeWritten(cfg: Config, run: seq<Action>, now: int, n: nat)
    requires WellFormed(cfg) && Legal(cfg, INIT, run)
    requires var s := Exec(cfg, INIT, run);
             && s.mode.Running? && s.pc.Idle? && s.queue != [] && !s.abandon && s.counter + |cfg.line(s.queue[0])| <= cfg.maxBytes
             && (if s.active.Some? then InWindow(s.active.value, now) else FreeAfter(s, FirstStart(s, now), n, 0))
    ensures var s := Exec(cfg, INIT, run);
            exists u :: Reaches(cfg, s, u) && IsLast(cfg, u, s.queue[0], if s.active.Some? then s.active.value.file else |s.files|)
  {
    hide Reaches, IsLast, InWindow, FreeAfter;
    Reachable(cfg, run);
    E.EveryEventIsAccounted(cfg, run);
    var s := Exec(cfg, INIT, run);
    assert s.queue[0] < |s.fate|;
    if s.active.Some? {
      assert FileInv(cfg, s.gen, s.files[s.active.value.file]);
      assert s.files[s.active.value.file].data == Lines(cfg, s.files[s.active.value.file].lines);
      OpenFileIsWritten(cfg, s, now);
    } else {
      NewFileIsWritten(cfg, s, now, n);
    }
  }

  // ----- a ready file is uploaded -----

  lemma UploadThen(cfg: Config, s0: Sys, s: Sys, a: Action)
    requires Reaches(cfg, s0, s) && s.mode.Running? && UploadEnabled(s, a)
    ensures Reaches(cfg, s0, UploadStep(s, a))
  {
    hide Reaches, IsListing;
    ReachThen(cfg, s0, s, a, UploadStep(s, a));
  }

  lemma FileIsStored(cfg: Config, s: Sys, order: seq<nat>)
    requires s.mode.Running? && s.up.Waiting? && IsListing(s.files, order) && order != []
    ensures order[0] < |s.files|
    ensures var i := order[0];
            Reaches(cfg, s, s.(up := Sent(i, order[1..]), files := s.files[i := s.files[i].(stored := Some(s.files[i].data))]))
  {
    hide Reaches, IsListing;
    FirstIsThere(s, order);
    ReachSelf(cfg, s);
    UploadThen(cfg, s, s, List(order));
    UploadThen(cfg, s, s.(up := Pass(order)), OpenFile(true));
    UploadThen(cfg, s, s.(up := Sending(order[0], order[1..])), Put(true));
  }

  /** From every state of a running process with an idle uploader: the file that a listing has first can be uploaded and removed. */
  lemma ReadyFileCanBeUploaded(cfg: Config, s: Sys, order: seq<nat>)
    requires s.mode.Running? && s.up.Waiting? && IsListing(s.files, order) && order != []
    ensures var i := order[0];
            exists u :: && Reaches(cfg, s, u) && i < |s.files| && |u.files| == |s.files| && u.files[i].place == Gone(true)
                        && u.files[i].stored == Some(s.files[i].data) && u.counter == s.counter - |s.files[i].data|
  {
    hide Reaches, IsListing;
    FileIsStored(cfg, s, order);
    var i := order[0];
    var s1 := s.(up := Sent(i, order[1..]), files := s.files[i := s.files[i].(stored := Some(s.files[i].data))]);
    UploadThen(cfg, s, s1, Remove(true));
    var s2 := UploadStep(s1, Remove(true));
    UploadThen(cfg, s, s2, Subtract);
    var u := UploadStep(s2, Subtract);
    assert u.files[i].place == Gone(true);
  }

  lemma FirstIsThere(s: Sys, order: seq<nat>)
    requires IsListing(s.files, order) && order != []
    ensures order[0] < |s.files|
  {
  }

  // ----- a file is finished, and one that was left is recovered -----

  /** From every reachable state in which the writer is idle and its file's window is over, or it is to stop: the file can be made ready, or removed if it is empty. */
  lemma OldFileCanBeFinished(cfg: Config, run: seq<Action>, a: Action)
    requires WellFormed(cfg) && Legal(cfg, INIT, run) && (a.Tick? || a.Finish?)
    requires Enabled(cfg, Exec(cfg, INIT, run), a) && Exec(cfg, INIT, run).active.Some?
    ensures var s := Exec(cfg, INIT, run);
            var i := s.active.value.file;
            exists u :: && Reaches(cfg, s, u) && i < |s.files| && i < |u.files| && u.active.None? && u.pc == (if a.Tick? then Idle else Stopped)
                        && u.files[i] == s.files[i].(place := if s.files[i].data == [] then Gone(false) else Ready)
  {
    hide Reaches;
    Reachable(cfg, run);
    var s := Exec(cfg, INIT, run);
    ReachSelf(cfg, s);
    ReachThen(cfg, s, s, a, s.(pc := Rotating(if a.Tick? then ToIdle else ToStop)));
    FileIsRotated(cfg, s, s.(pc := Rotating(if a.Tick? then ToIdle else ToStop)));
  }

  lemma FileIsRotated(cfg: Config, s0: Sys, s: Sys)
    requires Reaches(cfg, s0, s) && s.mode.Running? && s.pc.Rotating? && HasFile(s) && s.active.value.size == |s.files[s.active.value.file].data|
    ensures var i := s.active.value.file;
            exists u :: && Reaches(cfg, s0, u) && i < |u.files| && u.active.None? && u.pc == Continue(s.pc.next)
                        && u.files[i] == s.files[i].(place := if s.files[i].data == [] then Gone(false) else Ready)
  {
    hide Reaches;
    var i := s.active.value.file;
    var u := WriteStep(cfg, s, Rotate(true));
    ReachThen(cfg, s0, s, Rotate(true), u);
    assert u.files[i] == s.files[i].(place := if s.files[i].data == [] then Gone(false) else Ready);
  }

  lemma RecoverThen(cfg: Config, s0: Sys, s: Sys, a: Action)
    requires Reaches(cfg, s0, s) && RecEnabled(s, a)
    ensures Reaches(cfg, s0, RecoveryStep(s, a))
  {
    hide Reaches;
    ReachThen(cfg, s0, s, a, RecoveryStep(s, a));
  }

  /** A start that comes to an unfinished file can make its longest complete-line prefix ready and count it, or remove the file if that is empty. */
  lemma LeftFileCanBeRecovered(cfg: Config, s: Sys)
    requires s.mode.Recovering? && s.mode.rec.Scan? && s.mode.next < |s.files| && s.files[s.mode.next].place == Part
    ensures var i, f := s.mode.next, s.files[s.mode.next];
            var k := LastLineEnd(f.data);
            exists u :: && Reaches(cfg, s, u) && u.mode == Recovering(i + 1, Scan) && i < |u.files| && u.counter == s.counter + k
                        && (if k == 0 then u.files[i].place == Gone(false) else u.files[i].place == Ready && u.files[i].data == f.data[..k])
  {
    hide Reaches, LastLineEnd;
    var i, f := s.mode.next, s.files[s.mode.next];
    var k := LastLineEnd(f.data);
    ReachSelf(cfg, s);
    RecoverThen(cfg, s, s, RecRead(true));
    var s1 := RecoveryStep(s, RecRead(true));
    if k == 0 {
      RecoverThen(cfg, s, s1, RecRemove(true));
    } else if k < |f.data| {
      RecoverThen(cfg, s, s1, RecTruncate(true));
      RenamedIsCounted(cfg, s, RecoveryStep(s1, RecTruncate(true)), k);
    } else {
      assert f.data[..k] == f.data;
      RenamedIsCounted(cfg, s, s1, k);
    }
  }

  lemma RenamedIsCounted(cfg: Config, s0: Sys, s: Sys, k: nat)
    requires Reaches(cfg, s0, s) && RecEnabled(s, RecRename(true)) && s.mode.rec.k == k
    ensures var i := s.mode.next;
            exists u :: && Reaches(cfg, s0, u) && u.mode == Recovering(i + 1, Scan) && i < |u.files| && u.counter == s.counter + k
                        && u.files[i].place == Ready && u.files[i].data == s.files[i].data
  {
    hide Reaches;
    RecoverThen(cfg, s0, s, RecRename(true));
    var s1 := RecoveryStep(s, RecRename(true));
    RecoverThen(cfg, s0, s1, RecAdd);
    var u := RecoveryStep(s1, RecAdd);
    assert u.files[s.mode.next].place == Ready;
  }

  // ----- the size and the window of a file -----

  /** The open file is below the size at which it is finished, unless it is about to be; and the clock was in its window. */
  ghost predicate Bounded(cfg: Config, s: Sys) {
    s.active.Some? ==>
      && (s.active.value.size < cfg.maxFile || s.active.value.size == 0 || s.pc.Rotating?)
      && (s.pc.Checking? ==> InWindow(s.active.value, s.pc.now))
  }

  lemma WindowHoldsNow(now: int)
    ensures InWindow(Active(0, 0, now - now % WINDOW), now)
  {
  }

  lemma PrepareKeepsBounded(cfg: Config, s: Sys, a: Action)
    requires PrepareEnabled(s, a) && Bounded(cfg, s)
    ensures Bounded(cfg, PrepareStep(cfg, s, a))
  {
    hide InWindow;
  }

  lemma OpenKeepsBounded(cfg: Config, s: Sys, a: Action)
    requires OpenEnabled(s, a) && Bounded(cfg, s)
    ensures Bounded(cfg, OpenStep(s, a))
  {
    hide InWindow, Exists;
  }

  lemma WriteKeepsBounded(cfg: Config, s: Sys, a: Action)
    requires WriteEnabled(cfg, s, a) && Bounded(cfg, s)
    ensures Bounded(cfg, WriteStep(cfg, s, a))
  {
    hide InWindow;
  }

  lemma OthersKeepBounded(cfg: Config, s: Sys, a: Action)
    requires Bounded(cfg, s)
    ensures RecEnabled(s, a) ==> Bounded(cfg, RecoveryStep(s, a))
    ensures OtherEnabled(s, a) ==> Bounded(cfg, OtherStep(cfg, s, a))
    ensures UploadEnabled(s, a) ==> Bounded(cfg, UploadStep(s, a))
  {
    hide InWindow, LastLineEnd, IsListing;
  }

  lemma StepKeepsBounded(cfg: Config, s: Sys, a: Action)
    requires Enabled(cfg, s, a) && Bounded(cfg, s)
    ensures Bounded(cfg, Step(cfg, s, a))
  {
    hide Bounded, RecoveryStep, OtherStep, PrepareStep, OpenStep, WriteStep, UploadStep;
    OthersKeepBounded(cfg, s, a);
    if PrepareEnabled(s, a) {
      PrepareKeepsBounded(cfg, s, a);
    }
    if OpenEnabled(s, a) {
      OpenKeepsBounded(cfg, s, a);
    }
    if WriteEnabled(cfg, s, a) {
      WriteKeepsBounded(cfg, s, a);
    }
  }

  lemma {:induction false} RunKeepsBounded(cfg: Config, s: Sys, run: seq<Action>)
    requires Legal(cfg, s, run) && Bounded(cfg, s)
    ensures Bounded(cfg, Exec(cfg, s, run))
    decreases |run|
  {
    hide Bounded, Step, Enabled;
    if run != [] {
      StepKeepsBounded(cfg, s, run[0]);
      RunKeepsBounded(cfg, Step(cfg, s, run[0]), run[1..]);
    }
  }

  /**
   In every run, when an event is about to be written to the open file, the file is below its size limit and the clock
   read for the event lies in the file's window: a file is finished as soon as it is large enough or its window is over.
   */
  lemma FilesKeepToSizeAndWindow(cfg: Config, run: seq<Action>, a: Action)
    requires Legal(cfg, INIT, run) && Enabled(cfg, Exec(cfg, INIT, run), a) && (a.CheckCap? || a.Create?)
    requires Step(cfg, Exec(cfg, INIT, run), a).pc.Writing?
    ensures var s, t := Exec(cfg, INIT, run), Step(cfg, Exec(cfg, INIT, run), a);
            && t.active.Some? && (t.active.value.size < cfg.maxFile || t.active.value.size == 0)
            && InWindow(t.active.value, s.pc.now)
  {
    RunKeepsBounded(cfg, INIT, run);
    var s := Exec(cfg, INIT, run);
    StepKeepsBounded(cfg, s, a);
    WindowHoldsNow(s.pc.now);
  }
}
