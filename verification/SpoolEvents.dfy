/** The fate of every event submitted to the spool. */
module SpoolEvents {
  import opened Basics
  import opened Spool
  import opened SpoolFiles
  import opened SpoolRecovery

  function CountDropped(fate: seq<Fate>): nat {
    if fate == [] then 0 else CountDropped(fate[..|fate| - 1]) + (if fate[|fate| - 1].Dropped? then 1 else 0)
  }

  lemma {:induction false} DroppedUpdate(fate: seq<Fate>, e: nat, f: Fate)
    requires e < |fate|
    ensures CountDropped(fate[e := f]) == CountDropped(fate) - (if fate[e].Dropped? then 1 else 0) + (if f.Dropped? then 1 else 0)
    decreases |fate|
  {
    var n := |fate| - 1;
    if e == n {
      assert fate[e := f][..n] == fate[..n];
    } else {
      DroppedUpdate(fate[..n], e, f);
      assert fate[e := f][..n] == fate[..n][e := f];
    }
  }

  lemma DroppedAppend(fate: seq<Fate>, f: Fate)
    ensures CountDropped(fate + [f]) == CountDropped(fate) + if f.Dropped? then 1 else 0
  {
    assert (fate + [f])[..|fate|] == fate;
  }

  lemma {:induction false} ForgettingKeepsDropped(fate: seq<Fate>, fate': seq<Fate>)
    requires |fate'| == |fate| && forall i :: 0 <= i < |fate| ==> fate'[i] == Forget(fate[i])
    ensures CountDropped(fate') == CountDropped(fate)
    decreases |fate|
  {
    if fate != [] {
      ForgettingKeepsDropped(fate[..|fate| - 1], fate'[..|fate| - 1]);
    }
  }

  /** The queue holds exactly the queued events, each once. */
  ghost predicate QueueInv(s: Sys) {
    && (forall p :: 0 <= p < |s.queue| ==> s.queue[p] < |s.fate| && s.fate[s.queue[p]] == Queued)
    && (forall e :: 0 <= e < |s.fate| && s.fate[e] == Queued ==> e in s.queue)
    && (forall p, q :: 0 <= p < q < |s.queue| ==> s.queue[p] != s.queue[q])
  }

  /** The writer holds the one event that is in its hands. */
  ghost predicate HandInv(s: Sys) {
    && (HasEvent(s.pc) ==> EventOf(s.pc) < |s.fate| && s.fate[EventOf(s.pc)] == InHand)
    && (forall e :: 0 <= e < |s.fate| && s.fate[e] == InHand ==> HasEvent(s.pc) && EventOf(s.pc) == e)
  }

  predicate LineAt(files: seq<File>, i: nat, p: nat, e: nat) {
    i < |files| && p < |files[i].lines| && files[i].lines[p] == e
  }

  /** An event was written exactly where its fate says. */
  ghost predicate WrittenInv(s: Sys) {
    && (forall e :: 0 <= e < |s.fate| && s.fate[e].Written? ==> LineAt(s.files, s.fate[e].file, s.fate[e].pos, e))
    && (forall i, p :: 0 <= i < |s.files| && 0 <= p < |s.files[i].lines| ==> HasFate(s.fate, s.files[i].lines[p], i, p))
  }

  predicate HasFate(fate: seq<Fate>, e: nat, i: nat, p: nat) {
    e < |fate| && fate[e] == Written(i, p)
  }

  ghost predicate EventsInv(s: Sys) {
    QueueInv(s) && HandInv(s) && WrittenInv(s) && s.drops == CountDropped(s.fate)
  }

  /** What a step does to the parts that events are recorded in. */
  ghost predicate SameEvents(s: Sys, t: Sys) {
    && t.fate == s.fate && t.queue == s.queue && t.drops == s.drops
    && (HasEvent(t.pc) <==> HasEvent(s.pc)) && (HasEvent(s.pc) ==> EventOf(t.pc) == EventOf(s.pc))
    && SameLines(s.files, t.files)
  }

  ghost predicate SameLines(fs: seq<File>, gs: seq<File>) {
    |gs| >= |fs| && forall i :: 0 <= i < |gs| ==> gs[i].lines == (if i < |fs| then fs[i].lines else [])
  }

  lemma SameEventsKeepInv(s: Sys, t: Sys)
    requires EventsInv(s) && SameEvents(s, t)
    ensures EventsInv(t)
  {
  }

  /** The event in hand is dropped and counted. */
  ghost predicate Drops(s: Sys, t: Sys) {
    && HasEvent(s.pc) && EventOf(s.pc) < |s.fate| && t.fate == s.fate[EventOf(s.pc) := Dropped] && t.drops == s.drops + 1
    && t.queue == s.queue && !HasEvent(t.pc) && SameLines(s.files, t.files)
  }

  lemma DroppingKeepsInv(s: Sys, t: Sys)
    requires EventsInv(s) && Drops(s, t)
    ensures EventsInv(t)
  {
    DroppedUpdate(s.fate, EventOf(s.pc), Dropped);
  }

  lemma RecoverySteps(s: Sys, a: Action)
    requires RecEnabled(s, a)
    ensures SameEvents(s, RecoveryStep(s, a))
  {
    hide LastLineEnd;
  }

  lemma UploadSteps(s: Sys, a: Action)
    requires UploadEnabled(s, a)
    ensures SameEvents(s, UploadStep(s, a))
  {
    hide IsListing;
  }

  lemma OtherSteps(cfg: Config, s: Sys, a: Action)
    requires OtherEnabled(s, a) && !a.Submit? && !a.Crash?
    ensures SameEvents(s, OtherStep(cfg, s, a))
  {
  }

  lemma OpenSteps(s: Sys, a: Action)
    requires OpenEnabled(s, a)
    ensures SameEvents(s, OpenStep(s, a)) || Drops(s, OpenStep(s, a))
  {
    hide Exists;
    var t := OpenStep(s, a);
    assert t.files == s.files || (a.Create? && t.files == s.files + [NewFile(s)]);
  }

  lemma PrepareSteps(cfg: Config, s: Sys, a: Action)
    requires PrepareEnabled(s, a) && !a.Take?
    ensures SameEvents(s, PrepareStep(cfg, s, a)) || Drops(s, PrepareStep(cfg, s, a))
  {
  }

  lemma WriteSteps(cfg: Config, s: Sys, a: Action)
    requires WriteEnabled(cfg, s, a) && !a.Account?
    ensures SameEvents(s, WriteStep(cfg, s, a)) || Drops(s, WriteStep(cfg, s, a))
  {
  }

  /** A new event is queued, or dropped and counted. */
  ghost predicate Submits(s: Sys, t: Sys) {
    && t.files == s.files && t.pc == s.pc
    && ((t.fate == s.fate + [Queued] && t.queue == s.queue + [|s.fate|] && t.drops == s.drops)
        || (t.fate == s.fate + [Dropped] && t.queue == s.queue && t.drops == s.drops + 1))
  }

  lemma SubmittingKeepsQueue(s: Sys, t: Sys)
    requires QueueInv(s) && Submits(s, t)
    ensures QueueInv(t)
  {
    hide HasEvent;
  }

  lemma SubmittingKeepsHand(s: Sys, t: Sys)
    requires HandInv(s) && Submits(s, t)
    ensures HandInv(t)
  {
  }

  lemma SubmittingKeepsWritten(s: Sys, t: Sys)
    requires WrittenInv(s) && Submits(s, t)
    ensures WrittenInv(t)
  {
    forall i, p | 0 <= i < |t.files| && 0 <= p < |t.files[i].lines|
      ensures HasFate(t.fate, t.files[i].lines[p], i, p)
    {
      assert HasFate(s.fate, s.files[i].lines[p], i, p);
    }
  }

  lemma SubmitSteps(cfg: Config, s: Sys)
    requires s.mode.Running?
    ensures Submits(s, OtherStep(cfg, s, Submit))
  {
  }

  lemma SubmitKeepsInv(cfg: Config, s: Sys, t: Sys)
    requires EventsInv(s) && s.mode.Running? && t == OtherStep(cfg, s, Submit)
    ensures EventsInv(t)
  {
    hide QueueInv, HandInv, WrittenInv, OtherStep, CountDropped;
    SubmitSteps(cfg, s);
    SubmittingKeepsQueue(s, t);
    SubmittingKeepsHand(s, t);
    SubmittingKeepsWritten(s, t);
    DroppedAppend(s.fate, Queued);
    DroppedAppend(s.fate, Dropped);
  }

  lemma CrashKeepsInv(cfg: Config, s: Sys)
    requires EventsInv(s)
    ensures EventsInv(OtherStep(cfg, s, Crash))
  {
    ForgettingKeepsDropped(s.fate, OtherStep(cfg, s, Crash).fate);
  }

  /** The first event of the queue leaves it: into the writer's hands, or dropped and counted. */
  ghost predicate Takes(s: Sys, t: Sys) {
    && !HasEvent(s.pc) && s.queue != [] && s.queue[0] < |s.fate| && t.queue == s.queue[1..] && t.files == s.files
    && ((t.fate == s.fate[s.queue[0] := InHand] && HasEvent(t.pc) && EventOf(t.pc) == s.queue[0] && t.drops == s.drops)
        || (t.fate == s.fate[s.queue[0] := Dropped] && !HasEvent(t.pc) && t.drops == s.drops + 1))
  }

  lemma TakingKeepsQueue(s: Sys, t: Sys)
    requires QueueInv(s) && HandInv(s) && Takes(s, t)
    ensures QueueInv(t) && HandInv(t)
  {
    assert s.queue == [s.queue[0]] + s.queue[1..];
  }

  lemma TakingKeepsWritten(s: Sys, t: Sys)
    requires QueueInv(s) && WrittenInv(s) && Takes(s, t)
    ensures WrittenInv(t)
  {
    forall i, p | 0 <= i < |t.files| && 0 <= p < |t.files[i].lines|
      ensures HasFate(t.fate, t.files[i].lines[p], i, p)
    {
      assert HasFate(s.fate, s.files[i].lines[p], i, p);
    }
  }

  lemma TakeKeepsInv(cfg: Config, s: Sys, t: Sys)
    requires EventsInv(s) && PrepareEnabled(s, Take) && t == PrepareStep(cfg, s, Take)
    ensures EventsInv(t)
  {
    hide WrittenInv, HandInv;
    assert Takes(s, t);
    TakingKeepsQueue(s, t);
    TakingKeepsWritten(s, t);
    DroppedUpdate(s.fate, s.queue[0], t.fate[s.queue[0]]);
  }

  /** The event in hand becomes the last line of file i. */
  ghost predicate Accounts(s: Sys, t: Sys, i: nat) {
    && HasEvent(s.pc) && EventOf(s.pc) < |s.fate| && i < |s.files| && |t.files| == |s.files|
    && t.fate == s.fate[EventOf(s.pc) := Written(i, |s.files[i].lines|)] && t.drops == s.drops && t.queue == s.queue && !HasEvent(t.pc)
    && t.files[i].lines == s.files[i].lines + [EventOf(s.pc)]
    && forall j :: 0 <= j < |s.files| && j != i ==> t.files[j].lines == s.files[j].lines
  }

  lemma AccountingKeepsQueue(s: Sys, t: Sys, i: nat)
    requires EventsInv(s) && Accounts(s, t, i)
    ensures QueueInv(t) && HandInv(t) && t.drops == CountDropped(t.fate)
  {
    DroppedUpdate(s.fate, EventOf(s.pc), Written(i, |s.files[i].lines|));
  }

  lemma AccountingKeepsWritten(s: Sys, t: Sys, i: nat)
    requires HandInv(s) && WrittenInv(s) && Accounts(s, t, i)
    ensures WrittenInv(t)
  {
    var ev := EventOf(s.pc);
    forall e | 0 <= e < |t.fate| && t.fate[e].Written?
      ensures LineAt(t.files, t.fate[e].file, t.fate[e].pos, e)
    {
      assert e != ev ==> LineAt(s.files, s.fate[e].file, s.fate[e].pos, e);
    }
    forall j, p | 0 <= j < |t.files| && 0 <= p < |t.files[j].lines|
      ensures HasFate(t.fate, t.files[j].lines[p], j, p)
    {
      if j != i || p < |s.files[i].lines| {
        assert HasFate(s.fate, s.files[j].lines[p], j, p);
      }
    }
  }

  lemma AccountKeepsInv(cfg: Config, s: Sys, t: Sys)
    requires EventsInv(s) && WriteEnabled(cfg, s, Account) && t == WriteStep(cfg, s, Account)
    ensures EventsInv(t)
  {
    assert Accounts(s, t, s.active.value.file);
    AccountingKeepsQueue(s, t, s.active.value.file);
    AccountingKeepsWritten(s, t, s.active.value.file);
  }

  lemma StepKeepsEvents(cfg: Config, s: Sys, a: Action)
    requires EventsInv(s) && Enabled(cfg, s, a)
    ensures EventsInv(Step(cfg, s, a))
  {
    hide EventsInv, SameEvents, Drops, RecoveryStep, OpenStep, UploadStep;
    var t := Step(cfg, s, a);
    if a.Submit? {
      SubmitKeepsInv(cfg, s, t);
    } else if a.Crash? {
      CrashKeepsInv(cfg, s);
    } else if a.Take? {
      TakeKeepsInv(cfg, s, t);
    } else if a.Account? {
      AccountKeepsInv(cfg, s, t);
    } else {
      StepKeepsOrDrops(cfg, s, a);
      if SameEvents(s, t) {
        SameEventsKeepInv(s, t);
      } else {
        DroppingKeepsInv(s, t);
      }
    }
  }

  lemma StepKeepsOrDrops(cfg: Config, s: Sys, a: Action)
    requires Enabled(cfg, s, a) && !a.Submit? && !a.Crash? && !a.Take? && !a.Account?
    ensures SameEvents(s, Step(cfg, s, a)) || Drops(s, Step(cfg, s, a))
  {
    hide RecoveryStep, OtherStep, PrepareStep, OpenStep, WriteStep, UploadStep, SameEvents, Drops;
    if RecEnabled(s, a) {
      RecoverySteps(s, a);
    } else if OtherEnabled(s, a) {
      OtherSteps(cfg, s, a);
    } else if OpenEnabled(s, a) {
      OpenSteps(s, a);
    } else if PrepareEnabled(s, a) {
      PrepareSteps(cfg, s, a);
    } else if WriteEnabled(cfg, s, a) {
      WriteSteps(cfg, s, a);
    } else {
      UploadSteps(s, a);
    }
  }

  lemma {:induction false} RunKeepsEvents(cfg: Config, s: Sys, run: seq<Action>)
    requires EventsInv(s) && Legal(cfg, s, run)
    ensures EventsInv(Exec(cfg, s, run))
    decreases |run|
  {
    if run != [] {
      StepKeepsEvents(cfg, s, run[0]);
      RunKeepsEvents(cfg, Step(cfg, s, run[0]), run[1..]);
    }
  }

  // ----- lines on disk that no fate tells of -----

  /** What a write left behind belongs to an event that was dropped, lost, or is being written. */
  ghost predicate Residue(s: Sys, i: nat)
    requires i < |s.files|
  {
    s.files[i].cut > 0 ==>
      && s.files[i].of < |s.fate|
      && (s.fate[s.files[i].of].Dropped? || s.fate[s.files[i].of].Lost? || Holds(s, i))
  }

  /** The writer has just written to the file and not settled it. */
  predicate Holds(s: Sys, i: nat) {
    s.pc.Wrote? && s.active.Some? && s.active.value.file == i && i < |s.files| && s.pc.ev == s.files[i].of
  }

  ghost predicate ResidueInv(s: Sys) {
    && (forall i :: 0 <= i < |s.files| ==> Residue(s, i))
    && (forall i, j :: 0 <= i < j < |s.files| && s.files[i].cut > 0 && s.files[j].cut > 0 ==> s.files[i].of != s.files[j].of)
  }

  /** No file gains anything left behind, events that are dropped or lost stay so, and what the writer holds it still holds. */
  ghost predicate NoNewResidue(s: Sys, t: Sys) {
    && |t.files| >= |s.files| && |t.fate| >= |s.fate|
    && (forall i :: 0 <= i < |t.files| && t.files[i].cut > 0 ==> i < |s.files| && s.files[i].cut > 0 && t.files[i].of == s.files[i].of)
    && (forall e :: 0 <= e < |s.fate| && (s.fate[e].Dropped? || s.fate[e].Lost?) ==> t.fate[e] == s.fate[e])
    && (forall i :: 0 <= i < |t.files| && t.files[i].cut > 0 && Holds(s, i) ==>
          Holds(t, i) || (s.pc.ev < |t.fate| && (t.fate[s.pc.ev].Dropped? || t.fate[s.pc.ev].Lost?)))
  }

  lemma NoNewResidueKeeps(s: Sys, t: Sys)
    requires ResidueInv(s) && NoNewResidue(s, t)
    ensures ResidueInv(t)
  {
    forall i | 0 <= i < |t.files|
      ensures Residue(t, i)
    {
      assert t.files[i].cut > 0 ==> Residue(s, i);
    }
  }

  lemma RecoveryResidue(s: Sys, a: Action)
    requires RecInv(s) && RecEnabled(s, a)
    ensures NoNewResidue(s, RecoveryStep(s, a))
  {
    hide LastLineEnd;
  }

  lemma UploadResidue(s: Sys, a: Action)
    requires UploadEnabled(s, a)
    ensures NoNewResidue(s, UploadStep(s, a))
  {
    hide IsListing;
  }

  lemma CrashResidue(cfg: Config, s: Sys)
    requires HandInv(s)
    ensures NoNewResidue(s, OtherStep(cfg, s, Crash))
  {
  }

  lemma OtherResidue(cfg: Config, s: Sys, a: Action)
    requires OtherEnabled(s, a) && HandInv(s)
    ensures NoNewResidue(s, OtherStep(cfg, s, a))
  {
    if a.Crash? {
      CrashResidue(cfg, s);
    }
  }

  lemma PrepareResidue(cfg: Config, s: Sys, a: Action)
    requires PrepareEnabled(s, a) && EventsInv(s)
    ensures NoNewResidue(s, PrepareStep(cfg, s, a))
  {
    hide WrittenInv, CountDropped;
  }

  lemma OpenResidue(s: Sys, a: Action)
    requires OpenEnabled(s, a) && HandInv(s)
    ensures NoNewResidue(s, OpenStep(s, a))
  {
    hide Exists;
  }

  lemma SettleResidue(cfg: Config, s: Sys, a: Action)
    requires ActiveInv(cfg, s) && WriteEnabled(cfg, s, a) && HandInv(s) && !a.Write?
    ensures NoNewResidue(s, WriteStep(cfg, s, a))
  {
    hide Lines;
  }

  /** A write leaves something behind of the event in hand, which nothing else is left of. */
  lemma WriteResidue(cfg: Config, s: Sys, a: Action)
    requires ActiveInv(cfg, s) && WriteEnabled(cfg, s, a) && HandInv(s) && a.Write? && ResidueInv(s)
    ensures ResidueInv(WriteStep(cfg, s, a))
  {
    hide Lines;
    var t := WriteStep(cfg, s, a);
    forall i | 0 <= i < |t.files|
      ensures Residue(t, i)
    {
      assert Residue(s, i);
    }
    forall i | 0 <= i < |s.files| && s.files[i].cut > 0
      ensures s.files[i].of != s.pc.ev
    {
      assert Residue(s, i);
    }
  }

  lemma StepKeepsResidue(cfg: Config, s: Sys, a: Action)
    requires Inv(cfg, s) && EventsInv(s) && ResidueInv(s) && Enabled(cfg, s, a)
    ensures ResidueInv(Step(cfg, s, a))
  {
    hide RecoveryStep, OtherStep, PrepareStep, OpenStep, WriteStep, UploadStep, ResidueInv, NoNewResidue, FilesInv, ActiveInv, RecInv, UpInv, NamesInv,
         QueueInv, HandInv, WrittenInv;
    var t := Step(cfg, s, a);
    if a.Write? {
      assert t == WriteStep(cfg, s, a);
      WriteResidue(cfg, s, a);
    } else {
      if RecEnabled(s, a) {
        RecoveryResidue(s, a);
      } else if OtherEnabled(s, a) {
        OtherResidue(cfg, s, a);
      } else if PrepareEnabled(s, a) {
        PrepareResidue(cfg, s, a);
      } else if OpenEnabled(s, a) {
        OpenResidue(s, a);
      } else if WriteEnabled(cfg, s, a) {
        SettleResidue(cfg, s, a);
      } else {
        UploadResidue(s, a);
      }
      NoNewResidueKeeps(s, t);
    }
  }

  lemma {:induction false} RunKeepsResidue(cfg: Config, s: Sys, run: seq<Action>)
    requires WellFormed(cfg) && Inv(cfg, s) && EventsInv(s) && ResidueInv(s) && Legal(cfg, s, run)
    ensures Inv(cfg, Exec(cfg, s, run)) && EventsInv(Exec(cfg, s, run)) && ResidueInv(Exec(cfg, s, run))
    decreases |run|
  {
    hide Inv, EventsInv, ResidueInv, Step, Enabled;
    if run != [] {
      StepKeepsInv(cfg, s, run[0]);
      StepKeepsEvents(cfg, s, run[0]);
      StepKeepsResidue(cfg, s, run[0]);
      RunKeepsResidue(cfg, Step(cfg, s, run[0]), run[1..]);
    }
  }

  // ----- what every run keeps -----

  /**
   Every event ever submitted has exactly one fate: it is in the queue once, in the writer's hands, dropped and
   counted once, written as one line of one file, or lost in a crash before it was written.
   */
  lemma EveryEventIsAccounted(cfg: Config, run: seq<Action>)
    requires Legal(cfg, INIT, run)
    ensures EventsInv(Exec(cfg, INIT, run))
  {
    RunKeepsEvents(cfg, INIT, run);
  }

  /** The event's line is the p-th whole line of file i's bytes. */
  predicate OnDisk(cfg: Config, s: Sys, e: nat, i: nat, p: nat) {
    i < |s.files| && p < |Shown(cfg, s.files[i])| && Shown(cfg, s.files[i])[p] == e
  }

  /** The event's line was put down whole, and its write neither accounted nor undone. */
  predicate LeftOn(cfg: Config, s: Sys, e: nat, i: nat) {
    i < |s.files| && Unsettled(cfg, s.files[i]) && s.files[i].of == e
  }

  lemma OneLineEach(cfg: Config, s: Sys, e: nat, i: nat, p: nat, j: nat, q: nat)
    requires WellFormed(cfg) && EventsInv(s) && ResidueInv(s) && OnDisk(cfg, s, e, i, p) && OnDisk(cfg, s, e, j, q)
    ensures i == j && p == q
  {
    LineIsWrittenOrLeft(cfg, s, e, i, p);
    LineIsWrittenOrLeft(cfg, s, e, j, q);
  }

  lemma LineIsWrittenOrLeft(cfg: Config, s: Sys, e: nat, i: nat, p: nat)
    requires WellFormed(cfg) && EventsInv(s) && ResidueInv(s) && OnDisk(cfg, s, e, i, p)
    ensures e < |s.fate|
    ensures if p < |s.files[i].lines| then s.fate[e] == Written(i, p)
            else p == |s.files[i].lines| && LeftOn(cfg, s, e, i) && s.files[i].cut > 0 && (s.fate[e].Dropped? || s.fate[e].Lost? || s.fate[e].InHand?)
  {
    var f := s.files[i];
    if p < |f.lines| {
      assert Shown(cfg, f)[p] == f.lines[p];
      assert HasFate(s.fate, f.lines[p], i, p);
    } else {
      assert IsLine(cfg.line(f.of));
      assert Residue(s, i);
    }
  }

  /**
   The accounting over the bytes, in every run: the whole lines in the files, those already uploaded among them, are
   lines of submitted events, each in one place at most. An event's line is there if and only if the event was written,
   where its fate says, or its line was put down whole by a write that was neither accounted nor undone; such an event
   is dropped, lost in a crash, or still in the writer's hands.
   */
  lemma EveryLineIsAccounted(cfg: Config, run: seq<Action>, e: nat)
    requires WellFormed(cfg) && Legal(cfg, INIT, run)
    ensures var s := Exec(cfg, INIT, run);
            && (forall i :: 0 <= i < |s.files| ==> s.files[i].data[..LastLineEnd(s.files[i].data)] == Lines(cfg, Shown(cfg, s.files[i])))
            && (forall i, p, j, q :: OnDisk(cfg, s, e, i, p) && OnDisk(cfg, s, e, j, q) ==> i == j && p == q)
            && (forall i, p :: OnDisk(cfg, s, e, i, p) ==> e < |s.fate| && (s.fate[e] == Written(i, p) || LeftOn(cfg, s, e, i)))
            && (e < |s.fate| && s.fate[e].Written? ==> OnDisk(cfg, s, e, s.fate[e].file, s.fate[e].pos))
            && (forall i: nat :: LeftOn(cfg, s, e, i) ==>
                  && OnDisk(cfg, s, e, i, |s.files[i].lines|)
                  && e < |s.fate| && (s.fate[e].Dropped? || s.fate[e].Lost? || s.fate[e].InHand?))
  {
    RunKeepsResidue(cfg, INIT, run);
    LinesAreAccounted(cfg, Exec(cfg, INIT, run), e);
  }

  lemma LinesAreAccounted(cfg: Config, s: Sys, e: nat)
    requires WellFormed(cfg) && Inv(cfg, s) && EventsInv(s) && ResidueInv(s)
    ensures forall i :: 0 <= i < |s.files| ==> s.files[i].data[..LastLineEnd(s.files[i].data)] == Lines(cfg, Shown(cfg, s.files[i]))
    ensures forall i, p, j, q :: OnDisk(cfg, s, e, i, p) && OnDisk(cfg, s, e, j, q) ==> i == j && p == q
    ensures forall i, p :: OnDisk(cfg, s, e, i, p) ==> e < |s.fate| && (s.fate[e] == Written(i, p) || LeftOn(cfg, s, e, i))
    ensures e < |s.fate| && s.fate[e].Written? ==> OnDisk(cfg, s, e, s.fate[e].file, s.fate[e].pos)
    ensures forall i: nat :: LeftOn(cfg, s, e, i) ==>
              && OnDisk(cfg, s, e, i, |s.files[i].lines|)
              && e < |s.fate| && (s.fate[e].Dropped? || s.fate[e].Lost? || s.fate[e].InHand?)
  {
    forall i | 0 <= i < |s.files|
      ensures s.files[i].data[..LastLineEnd(s.files[i].data)] == Lines(cfg, Shown(cfg, s.files[i]))
    {
      assert FileInv(cfg, s.gen, s.files[i]);
      ShownIsTheData(cfg, s.gen, s.files[i]);
    }
    forall i, p, j, q | OnDisk(cfg, s, e, i, p) && OnDisk(cfg, s, e, j, q)
      ensures i == j && p == q
    {
      OneLineEach(cfg, s, e, i, p, j, q);
    }
    forall i, p | OnDisk(cfg, s, e, i, p)
      ensures e < |s.fate| && (s.fate[e] == Written(i, p) || LeftOn(cfg, s, e, i))
    {
      LineIsWrittenOrLeft(cfg, s, e, i, p);
    }
    if e < |s.fate| && s.fate[e].Written? {
      assert LineAt(s.files, s.fate[e].file, s.fate[e].pos, e);
    }
    forall i: nat | LeftOn(cfg, s, e, i)
      ensures OnDisk(cfg, s, e, i, |s.files[i].lines|) && e < |s.fate| && (s.fate[e].Dropped? || s.fate[e].Lost? || s.fate[e].InHand?)
    {
      assert OnDisk(cfg, s, e, i, |s.files[i].lines|);
      LineIsWrittenOrLeft(cfg, s, e, i, |s.files[i].lines|);
    }
  }

  predicate IsSettled(s: Sys, e: nat) {
    e < |s.fate| && !s.fate[e].Queued? && !s.fate[e].InHand?
  }

  lemma StepKeepsFate(cfg: Config, s: Sys, a: Action, e: nat)
    requires EventsInv(s) && Enabled(cfg, s, a) && IsSettled(s, e)
    ensures var t := Step(cfg, s, a); e < |t.fate| && t.fate[e] == s.fate[e]
  {
    if !a.Submit? && !a.Crash? && !a.Take? && !a.Account? {
      StepKeepsOrDrops(cfg, s, a);
    }
  }

  lemma {:induction false} RunKeepsFate(cfg: Config, s: Sys, run: seq<Action>, e: nat)
    requires EventsInv(s) && Legal(cfg, s, run) && IsSettled(s, e)
    ensures var t := Exec(cfg, s, run); e < |t.fate| && t.fate[e] == s.fate[e]
    decreases |run|
  {
    hide EventsInv, Step, Enabled;
    if run != [] {
      StepKeepsFate(cfg, s, run[0], e);
      StepKeepsEvents(cfg, s, run[0]);
      RunKeepsFate(cfg, Step(cfg, s, run[0]), run[1..], e);
    }
  }

  /** In every run a dropped, written or lost event never has another fate, so no drop is counted twice and no line written twice. */
  lemma FateIsFinal(cfg: Config, run: seq<Action>, later: seq<Action>, e: nat)
    requires Legal(cfg, INIT, run) && IsSettled(Exec(cfg, INIT, run), e) && Legal(cfg, Exec(cfg, INIT, run), later)
    ensures var t := Exec(cfg, Exec(cfg, INIT, run), later); e < |t.fate| && t.fate[e] == Exec(cfg, INIT, run).fate[e]
  {
    hide EventsInv, Step, Enabled;
    EveryEventIsAccounted(cfg, run);
    RunKeepsFate(cfg, Exec(cfg, INIT, run), later, e);
  }

  /** No written event is lost: its line is in a file that still exists, or in the bytes a successful upload stored. */
  lemma WrittenEventsSurvive(cfg: Config, run: seq<Action>, e: nat)
    requires WellFormed(cfg) && Legal(cfg, INIT, run)
    requires var t := Exec(cfg, INIT, run); e < |t.fate| && t.fate[e].Written?
    ensures var t := Exec(cfg, INIT, run);
            && LineAt(t.files, t.fate[e].file, t.fate[e].pos, e)
            && var f := t.files[t.fate[e].file];
               && Lines(cfg, f.lines) <= f.data
               && (f.place.Gone? ==> f.stored == Some(f.data))
  {
    RunKeepsEvents(cfg, INIT, run);
    RunKeepsInv(cfg, INIT, run);
    var t := Exec(cfg, INIT, run);
    assert FileInv(cfg, t.gen, t.files[t.fate[e].file]);
  }
}
