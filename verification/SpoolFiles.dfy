/** What every run of the spool keeps about its files: their contents, their names, and when they may go. */
module SpoolFiles {
  import opened Basics
  import opened Spool

  // ----- bytes -----

  /** LastLineEnd is the end of the longest prefix made of whole lines. */
  lemma {:induction false} LongestCompletePrefix(b: seq<int>)
    ensures var k := LastLineEnd(b); (k == 0 || b[k - 1] == NEWLINE) && forall j :: k <= j < |b| ==> b[j] != NEWLINE
    decreases |b|
  {
    if b != [] && b[|b| - 1] != NEWLINE {
      LongestCompletePrefix(b[..|b| - 1]);
    }
  }

  lemma {:induction false} LinesEnd(cfg: Config, es: seq<nat>)
    requires WellFormed(cfg)
    ensures |Lines(cfg, es)| >= |es|
    ensures es != [] ==> Lines(cfg, es)[|Lines(cfg, es)| - 1] == NEWLINE
    decreases |es|
  {
    if es != [] {
      LinesEnd(cfg, es[..|es| - 1]);
      assert IsLine(cfg.line(es[|es| - 1]));
    }
  }

  lemma LinesAppend(cfg: Config, es: seq<nat>, e: nat)
    ensures Lines(cfg, es + [e]) == Lines(cfg, es) + cfg.line(e)
  {
    assert (es + [e])[..|es|] == es;
  }

  /** A file's bytes: the lines written to it, then what an unfinished write left. */
  ghost predicate Content(cfg: Config, f: File) {
    f.cut <= |cfg.line(f.of)| && f.data == Lines(cfg, f.lines) + cfg.line(f.of)[..f.cut]
  }

  /** Recovery keeps every line that was written, and of an unfinished write nothing or the whole line. */
  lemma RecoveryKeepsTheLines(cfg: Config, f: File)
    requires WellFormed(cfg) && Content(cfg, f)
    ensures LastLineEnd(f.data) == if f.cut == |cfg.line(f.of)| then |f.data| else |Lines(cfg, f.lines)|
  {
    LongestCompletePrefix(f.data);
    LinesEnd(cfg, f.lines);
    assert IsLine(cfg.line(f.of));
    var k, m := LastLineEnd(f.data), |Lines(cfg, f.lines)|;
    if f.cut == |cfg.line(f.of)| {
      assert f.data[|f.data| - 1] == NEWLINE;
    } else {
      assert forall j :: m <= j < |f.data| ==> f.data[j] == cfg.line(f.of)[j - m];
      assert m > 0 ==> f.data[m - 1] == Lines(cfg, f.lines)[m - 1];
    }
  }

  // ----- one file -----

  ghost predicate FileInv(cfg: Config, gen: nat, f: File) {
    && Content(cfg, f)
    && f.tracked <= gen && f.maker <= gen
    && (f.place == Gone(true) ==> f.stored == Some(f.data))
    && (f.place == Gone(false) ==> f.lines == [])
  }

  /** The file being written is the writer's own `.part`, and its size is known except while a write is not accounted. */
  ghost predicate ActiveInv(cfg: Config, s: Sys) {
    && (s.active.Some? ==>
          && s.mode.Running? && HasFile(s)
          && var w, f := s.active.value, s.files[s.active.value.file];
             && f.place == Part && f.maker == s.gen && f.tracked == s.gen
             && |f.data| == w.size + (if s.pc.Wrote? then s.pc.n else 0)
             && (s.pc.Wrote? ==> f.of == s.pc.ev && f.cut == s.pc.n && s.pc.n <= |cfg.line(s.pc.ev)| && (s.pc.ok ==> s.pc.n == |cfg.line(s.pc.ev)|))
             && (!s.pc.Wrote? && !s.pc.Rotating? ==> f.cut == 0))
    && (s.pc.Naming? || s.pc.Creating? ==> s.active.None?)
    && (s.pc.Writing? || s.pc.Wrote? ==> s.active.Some?)
  }

  /** While a file is being recovered its name and size stay what recovery read. */
  ghost predicate RecInv(s: Sys) {
    && (s.mode.Recovering? ==> s.mode.next <= |s.files|)
    && (s.mode.Recovering? && !s.mode.rec.Scan? ==>
          && s.mode.next < |s.files|
          && var f := s.files[s.mode.next];
             && (s.mode.rec.Keep? ==> f.place == Part && s.mode.rec.k == LastLineEnd(f.data))
             && (s.mode.rec.Cut? ==> f.place == Part && s.mode.rec.k == |f.data|)
             && (s.mode.rec.Renamed? ==> f.place == Ready && s.mode.rec.k == |f.data| && f.tracked < s.gen))
    && (!s.mode.Running? ==> s.up.Waiting? && s.active.None? && s.pc.Idle?)
  }

  /** Every ready file is counted once recovery has passed it; a file that is not made or counted by this process is a leftover. */
  ghost predicate CountedInv(s: Sys, i: nat)
    requires i < |s.files|
  {
    && (s.mode.Down? ==> s.files[i].tracked < s.gen && s.files[i].maker < s.gen)
    && (s.mode.Recovering? ==> s.files[i].maker < s.gen && (s.mode.next <= i ==> s.files[i].tracked < s.gen))
    && (s.mode.Running? || (s.mode.Recovering? && i < s.mode.next) ==> s.files[i].place == Ready ==> s.files[i].tracked == s.gen)
  }

  /** The pass's remaining files are ready and distinct; the file at hand is not among them. */
  ghost predicate Queue(s: Sys, todo: seq<nat>) {
    && (forall p :: 0 <= p < |todo| ==> todo[p] < |s.files| && s.files[todo[p]].place == Ready)
    && (forall p, q :: 0 <= p < q < |todo| ==> todo[p] != todo[q])
  }

  ghost predicate UpInv(s: Sys) {
    && (!s.up.Waiting? ==> Queue(s, s.up.todo))
    && (s.up.Sending? || s.up.Sent? ==> s.up.file < |s.files| && s.files[s.up.file].place == Ready && s.up.file !in s.up.todo)
    && (s.up.Sent? ==> s.files[s.up.file].stored == Some(s.files[s.up.file].data))
  }

  /** No two files that exist share a name, and a name about to be created is not taken by a ready file. */
  ghost predicate NamesInv(s: Sys) {
    && (forall i, j :: 0 <= i < j < |s.files| ==> Apart(s.files[i], s.files[j]))
    && (s.pc.Creating? ==> !Exists(s.files, Name(s.pc.start, s.node), Ready))
  }

  predicate Apart(f: File, g: File) {
    f.place.Gone? || g.place.Gone? || f.name != g.name
  }

  ghost predicate Inv(cfg: Config, s: Sys) {
    && FilesInv(cfg, s) && ActiveInv(cfg, s) && RecInv(s) && UpInv(s) && NamesInv(s)
  }

  // ----- every step keeps it -----

  ghost predicate FilesInv(cfg: Config, s: Sys) {
    && s.gen >= 1
    && (forall i :: 0 <= i < |s.files| ==> FileInv(cfg, s.gen, s.files[i]))
    && (forall i :: 0 <= i < |s.files| ==> CountedInv(s, i))
  }

  /** Counting a file, or giving it its ready name, changes nothing in it. */
  lemma MarkedFile(cfg: Config, gen: nat, f: File)
    requires FileInv(cfg, gen, f) && !f.place.Gone?
    ensures FileInv(cfg, gen, f.(tracked := gen)) && FileInv(cfg, gen, f.(place := Ready))
  {
  }

  /** Recovery cuts a file after its last whole line. */
  lemma CutFile(cfg: Config, gen: nat, f: File)
    requires WellFormed(cfg) && FileInv(cfg, gen, f) && f.place == Part && LastLineEnd(f.data) < |f.data|
    ensures FileInv(cfg, gen, f.(data := f.data[..LastLineEnd(f.data)], cut := 0))
  {
    RecoveryKeepsTheLines(cfg, f);
    assert f.data[..LastLineEnd(f.data)] == Lines(cfg, f.lines);
  }

  /** A file without a whole line holds no event that was written. */
  lemma RemovedFile(cfg: Config, gen: nat, f: File)
    requires WellFormed(cfg) && FileInv(cfg, gen, f) && LastLineEnd(f.data) == 0
    ensures FileInv(cfg, gen, f.(place := Gone(false)))
  {
    RecoveryKeepsTheLines(cfg, f);
    LinesEnd(cfg, f.lines);
  }

  lemma RecoveryKeepsItsFile(cfg: Config, s: Sys, a: Action, f: File)
    requires WellFormed(cfg) && RecInv(s) && RecEnabled(s, a) && f == s.files[s.mode.next] && FileInv(cfg, s.gen, f)
    ensures FileInv(cfg, s.gen, RecoveryStep(s, a).files[s.mode.next])
  {
    hide FileInv, LastLineEnd, Lines;
    match a
    case RecRemove(_) => RemovedFile(cfg, s.gen, f);
    case RecTruncate(_) => CutFile(cfg, s.gen, f);
    case RecRename(_) => MarkedFile(cfg, s.gen, f);
    case RecCount => MarkedFile(cfg, s.gen, f);
    case RecAdd => MarkedFile(cfg, s.gen, f);
    case _ =>
  }

  lemma RecoveryKeepsCounted(s: Sys, a: Action, i: nat)
    requires RecInv(s) && RecEnabled(s, a) && i < |s.files| && CountedInv(s, i)
    ensures CountedInv(RecoveryStep(s, a), i)
  {
    hide LastLineEnd;
  }

  lemma RecoveryKeepsFiles(cfg: Config, s: Sys, a: Action)
    requires WellFormed(cfg) && Inv(cfg, s) && RecEnabled(s, a)
    ensures FilesInv(cfg, RecoveryStep(s, a))
  {
    hide FileInv, CountedInv, RecInv, ActiveInv, UpInv, NamesInv;
    var s' := RecoveryStep(s, a);
    RecoveryKeepsItsFile(cfg, s, a, s.files[s.mode.next]);
    forall i | 0 <= i < |s'.files|
      ensures FileInv(cfg, s'.gen, s'.files[i]) && CountedInv(s', i)
    {
      assert FileInv(cfg, s.gen, s.files[i]);
      assert i != s.mode.next ==> s'.files[i] == s.files[i];
      RecoveryKeepsCounted(s, a, i);
    }
  }

  lemma RecoveryKeepsNames(s: Sys, a: Action)
    requires NamesInv(s) && RecInv(s) && RecEnabled(s, a)
    ensures NamesInv(RecoveryStep(s, a))
  {
    hide LastLineEnd, Exists;
    var s' := RecoveryStep(s, a);
    assert !s'.pc.Creating?;
    forall i, j | 0 <= i < j < |s'.files|
      ensures Apart(s'.files[i], s'.files[j])
    {
      assert Apart(s.files[i], s.files[j]);
    }
  }

  lemma RecoveryKeepsRec(cfg: Config, s: Sys, a: Action)
    requires RecInv(s) && ActiveInv(cfg, s) && UpInv(s) && RecEnabled(s, a) && CountedInv(s, s.mode.next)
    ensures var s' := RecoveryStep(s, a); RecInv(s') && ActiveInv(cfg, s') && UpInv(s')
  {
  }

  /** Steps that leave the files alone keep what is known of them. */
  lemma SameFiles(cfg: Config, s: Sys, t: Sys)
    requires Inv(cfg, s) && t.files == s.files && t.gen == s.gen && t.mode == s.mode && t.up == s.up
    ensures FilesInv(cfg, t) && UpInv(t)
  {
    forall i | 0 <= i < |t.files|
      ensures FileInv(cfg, t.gen, t.files[i]) && CountedInv(t, i)
    {
      assert FileInv(cfg, s.gen, s.files[i]) && CountedInv(s, i);
    }
  }

  lemma PrepareLeavesFiles(cfg: Config, s: Sys, a: Action)
    requires PrepareEnabled(s, a)
    ensures var t := PrepareStep(cfg, s, a);
            && t.files == s.files && t.gen == s.gen && t.mode == s.mode && t.up == s.up && t.node == s.node && t.active == s.active && t.counter == s.counter
            && !t.pc.Wrote? && !t.pc.Creating? && (t.pc.Naming? ==> t.active.None?) && (t.pc.Writing? ==> t.active.Some?)
            && t.lastStart == s.lastStart && !s.pc.Wrote? && !s.pc.Rotating?
  {
  }

  lemma PrepareKeepsInv(cfg: Config, s: Sys, t: Sys, a: Action)
    requires Inv(cfg, s) && s.mode.Running? && PrepareEnabled(s, a) && t == PrepareStep(cfg, s, a)
    ensures Inv(cfg, t)
  {
    PrepareLeavesFiles(cfg, s, a);
    SameFiles(cfg, s, t);
  }

  lemma OpenKeepsFiles(cfg: Config, s: Sys, a: Action)
    requires Inv(cfg, s) && s.mode.Running? && OpenEnabled(s, a)
    ensures FilesInv(cfg, OpenStep(s, a))
  {
    hide ActiveInv, RecInv, UpInv, NamesInv, Exists;
    var s' := OpenStep(s, a);
    forall i | 0 <= i < |s'.files|
      ensures FileInv(cfg, s'.gen, s'.files[i]) && CountedInv(s', i)
    {
      if i < |s.files| {
        assert FileInv(cfg, s.gen, s.files[i]) && CountedInv(s, i);
      }
    }
  }

  lemma OpenKeepsWriter(cfg: Config, s: Sys, a: Action)
    requires ActiveInv(cfg, s) && RecInv(s) && s.mode.Running? && OpenEnabled(s, a)
    ensures var s' := OpenStep(s, a); ActiveInv(cfg, s') && RecInv(s')
  {
    hide Exists, LastLineEnd;
  }

  lemma OpenKeepsUp(s: Sys, a: Action)
    requires UpInv(s) && OpenEnabled(s, a)
    ensures UpInv(OpenStep(s, a))
  {
    hide UpInv, Exists;
    SamePass(s, OpenStep(s, a));
  }

  /** Lstat finds no ready file and O_EXCL no unfinished one, so the new file's name is free. */
  lemma OpenKeepsNames(s: Sys, a: Action)
    requires NamesInv(s) && OpenEnabled(s, a)
    ensures NamesInv(OpenStep(s, a))
  {
    if a.Create? && OpenStep(s, a).files != s.files {
      NewNameIsFree(s.files, NewFile(s));
    }
  }

  lemma NewNameIsFree(files: seq<File>, f: File)
    requires f.place == Part && !Exists(files, f.name, Ready) && !Exists(files, f.name, Part)
    ensures forall i :: 0 <= i < |files| ==> Apart(files[i], f)
  {
  }

  /** A write appends part or all of a line to a file that ends in whole lines. */
  lemma AppendedFile(cfg: Config, gen: nat, f: File, e: nat, n: nat)
    requires FileInv(cfg, gen, f) && f.cut == 0 && f.place == Part && n <= |cfg.line(e)|
    ensures FileInv(cfg, gen, f.(data := f.data + cfg.line(e)[..n], of := e, cut := n))
  {
  }

  /** The whole line that was appended is one of the file's lines. */
  lemma AccountedFile(cfg: Config, gen: nat, f: File)
    requires FileInv(cfg, gen, f) && f.cut == |cfg.line(f.of)| && f.place == Part
    ensures FileInv(cfg, gen, f.(lines := f.lines + [f.of], cut := 0))
  {
    LinesAppend(cfg, f.lines, f.of);
  }

  /** What was appended is cut off again. */
  lemma UndoneFile(cfg: Config, gen: nat, f: File, size: int)
    requires FileInv(cfg, gen, f) && f.place == Part && 0 <= size && |f.data| == size + f.cut
    ensures FileInv(cfg, gen, f.(data := f.data[..size], cut := 0))
  {
    assert f.data[..size] == Lines(cfg, f.lines);
  }

  lemma RotatedFile(cfg: Config, gen: nat, f: File, size: int)
    requires WellFormed(cfg) && FileInv(cfg, gen, f) && f.place == Part && |f.data| == size
    ensures FileInv(cfg, gen, f.(place := if size == 0 then Gone(false) else Ready))
  {
    LinesEnd(cfg, f.lines);
  }

  lemma WriteKeepsActiveFile(cfg: Config, s: Sys, a: Action, f: File)
    requires WellFormed(cfg) && ActiveInv(cfg, s) && WriteEnabled(cfg, s, a) && s.active.Some?
    requires f == s.files[s.active.value.file] && FileInv(cfg, s.gen, f)
    ensures FileInv(cfg, s.gen, WriteStep(cfg, s, a).files[s.active.value.file])
  {
    hide FileInv, Lines;
    match a
    case Write(n, _) => AppendedFile(cfg, s.gen, f, s.pc.ev, n);
    case Account => AccountedFile(cfg, s.gen, f);
    case Truncate(_) => UndoneFile(cfg, s.gen, f, s.active.value.size);
    case Rotate(_) => RotatedFile(cfg, s.gen, f, s.active.value.size);
  }

  lemma WriteKeepsFiles(cfg: Config, s: Sys, a: Action)
    requires WellFormed(cfg) && Inv(cfg, s) && s.mode.Running? && WriteEnabled(cfg, s, a)
    ensures FilesInv(cfg, WriteStep(cfg, s, a))
  {
    hide FileInv, RecInv, UpInv, NamesInv;
    var s' := WriteStep(cfg, s, a);
    if s.active.Some? {
      WriteKeepsActiveFile(cfg, s, a, s.files[s.active.value.file]);
    }
    forall i | 0 <= i < |s'.files|
      ensures FileInv(cfg, s'.gen, s'.files[i]) && CountedInv(s', i)
    {
      assert FileInv(cfg, s.gen, s.files[i]) && CountedInv(s, i);
    }
  }

  lemma WriteKeepsWriter(cfg: Config, s: Sys, a: Action)
    requires Inv(cfg, s) && s.mode.Running? && WriteEnabled(cfg, s, a)
    ensures var s' := WriteStep(cfg, s, a); ActiveInv(cfg, s') && RecInv(s')
  {
    hide CountedInv, UpInv, NamesInv, Lines, LastLineEnd;
    if s.active.Some? {
      assert FileInv(cfg, s.gen, s.files[s.active.value.file]);
    }
  }

  /** The pass only knows ready files, so what else happens to files does not touch it. */
  lemma SamePass(s: Sys, t: Sys)
    requires UpInv(s) && t.up == s.up && |t.files| >= |s.files|
    requires forall i :: 0 <= i < |s.files| && s.files[i].place == Ready ==> t.files[i] == s.files[i]
    ensures UpInv(t)
  {
  }

  lemma WriteKeepsUp(cfg: Config, s: Sys, a: Action)
    requires UpInv(s) && ActiveInv(cfg, s) && WriteEnabled(cfg, s, a)
    ensures UpInv(WriteStep(cfg, s, a))
  {
    hide UpInv, Lines;
    SamePass(s, WriteStep(cfg, s, a));
  }

  lemma WriteKeepsNames(cfg: Config, s: Sys, a: Action)
    requires Inv(cfg, s) && s.mode.Running? && WriteEnabled(cfg, s, a)
    ensures NamesInv(WriteStep(cfg, s, a))
  {
    hide FilesInv, RecInv, UpInv;
    var s' := WriteStep(cfg, s, a);
    forall i, j | 0 <= i < j < |s'.files|
      ensures Apart(s'.files[i], s'.files[j])
    {
      assert Apart(s.files[i], s.files[j]);
    }
  }

  lemma UploadKeepsFiles(cfg: Config, s: Sys, a: Action)
    requires Inv(cfg, s) && s.mode.Running? && UploadEnabled(s, a)
    ensures FilesInv(cfg, UploadStep(s, a))
  {
    hide ActiveInv, RecInv, NamesInv, Lines;
    var s' := UploadStep(s, a);
    forall i | 0 <= i < |s'.files|
      ensures FileInv(cfg, s'.gen, s'.files[i]) && CountedInv(s', i)
    {
      assert FileInv(cfg, s.gen, s.files[i]) && CountedInv(s, i);
    }
  }

  lemma UploadKeepsNames(s: Sys, a: Action)
    requires NamesInv(s) && UploadEnabled(s, a)
    ensures NamesInv(UploadStep(s, a))
  {
    hide IsListing;
    var s' := UploadStep(s, a);
    forall i, j | 0 <= i < j < |s'.files|
      ensures Apart(s'.files[i], s'.files[j])
    {
      assert Apart(s.files[i], s.files[j]);
    }
  }

  lemma UploadKeepsWriter(cfg: Config, s: Sys, a: Action)
    requires ActiveInv(cfg, s) && RecInv(s) && UpInv(s) && s.mode.Running? && UploadEnabled(s, a)
    ensures var s' := UploadStep(s, a); ActiveInv(cfg, s') && RecInv(s')
  {
    hide IsListing, LastLineEnd;
  }

  lemma ListKeepsUp(s: Sys, order: seq<nat>)
    requires IsListing(s.files, order)
    ensures UpInv(s.(up := Pass(order)))
  {
  }

  lemma UploadKeepsUp(s: Sys, a: Action)
    requires UpInv(s) && UploadEnabled(s, a)
    ensures UpInv(UploadStep(s, a))
  {
    if a.List? {
      ListKeepsUp(s, a.order);
    } else {
      PassKeepsUp(s, a);
    }
  }

  lemma PassKeepsUp(s: Sys, a: Action)
    requires UpInv(s) && UploadEnabled(s, a) && !a.List?
    ensures UpInv(UploadStep(s, a))
  {
    hide IsListing;
  }

  lemma CrashKeepsInv(cfg: Config, s: Sys)
    requires Inv(cfg, s)
    ensures Inv(cfg, OtherStep(cfg, s, Crash))
  {
    hide Lines, Content, LastLineEnd, Exists;
    var s' := OtherStep(cfg, s, Crash);
    forall i | 0 <= i < |s'.files|
      ensures FileInv(cfg, s'.gen, s'.files[i]) && CountedInv(s', i)
    {
      assert FileInv(cfg, s.gen, s.files[i]) && CountedInv(s, i);
    }
  }

  lemma BootKeepsInv(cfg: Config, s: Sys, a: Action)
    requires Inv(cfg, s) && OtherEnabled(s, a) && (a.Boot? || a.RecDone?)
    ensures Inv(cfg, OtherStep(cfg, s, a))
  {
    hide FileInv, LastLineEnd, Exists, Lines;
    var s' := OtherStep(cfg, s, a);
    forall i | 0 <= i < |s'.files|
      ensures FileInv(cfg, s'.gen, s'.files[i]) && CountedInv(s', i)
    {
      assert FileInv(cfg, s.gen, s.files[i]) && CountedInv(s, i);
    }
  }

  lemma OtherKeepsInv(cfg: Config, s: Sys, a: Action)
    requires Inv(cfg, s) && OtherEnabled(s, a)
    ensures Inv(cfg, OtherStep(cfg, s, a))
  {
    hide FileInv, CountedInv, UpInv, LastLineEnd, Exists, Lines;
    if a.Crash? {
      CrashKeepsInv(cfg, s);
    } else if a.Boot? || a.RecDone? {
      BootKeepsInv(cfg, s, a);
    } else {
      SameFiles(cfg, s, OtherStep(cfg, s, a));
    }
  }

  lemma StepKeepsInv(cfg: Config, s: Sys, a: Action)
    requires WellFormed(cfg) && Inv(cfg, s) && Enabled(cfg, s, a)
    ensures Inv(cfg, Step(cfg, s, a))
  {
    hide RecoveryStep, OtherStep, PrepareStep, OpenStep, WriteStep, UploadStep, ActiveInv, RecInv, UpInv, NamesInv, FileInv, CountedInv;
    if RecEnabled(s, a) {
      RecoveryKeepsFiles(cfg, s, a);
      assert CountedInv(s, s.mode.next);
      RecoveryKeepsRec(cfg, s, a);
      RecoveryKeepsNames(s, a);
    } else if OtherEnabled(s, a) {
      OtherKeepsInv(cfg, s, a);
    } else if PrepareEnabled(s, a) {
      PrepareKeepsInv(cfg, s, PrepareStep(cfg, s, a), a);
    } else if OpenEnabled(s, a) {
      OpenKeepsFiles(cfg, s, a);
      OpenKeepsWriter(cfg, s, a);
      OpenKeepsUp(s, a);
      OpenKeepsNames(s, a);
    } else if WriteEnabled(cfg, s, a) {
      WriteKeepsFiles(cfg, s, a);
      WriteKeepsWriter(cfg, s, a);
      WriteKeepsUp(cfg, s, a);
      WriteKeepsNames(cfg, s, a);
    } else {
      UploadKeepsFiles(cfg, s, a);
      UploadKeepsWriter(cfg, s, a);
      UploadKeepsNames(s, a);
      UploadKeepsUp(s, a);
    }
  }

  lemma {:induction false} RunKeepsInv(cfg: Config, s: Sys, run: seq<Action>)
    requires WellFormed(cfg) && Inv(cfg, s) && Legal(cfg, s, run)
    ensures Inv(cfg, Exec(cfg, s, run))
    decreases |run|
  {
    if run != [] {
      StepKeepsInv(cfg, s, run[0]);
      RunKeepsInv(cfg, Step(cfg, s, run[0]), run[1..]);
    }
  }

  // ----- what every run keeps -----

  lemma Reachable(cfg: Config, run: seq<Action>)
    requires WellFormed(cfg) && Legal(cfg, INIT, run)
    ensures Inv(cfg, Exec(cfg, INIT, run))
  {
    RunKeepsInv(cfg, INIT, run);
  }

  /** No rename, of the writer or of recovery, ever lands on a ready file. */
  lemma RenamesLandOnFreeNames(cfg: Config, run: seq<Action>, i: nat)
    requires WellFormed(cfg) && Legal(cfg, INIT, run)
    requires var t := Exec(cfg, INIT, run); i < |t.files| && t.files[i].place == Part
    ensures var t := Exec(cfg, INIT, run); !Exists(t.files, t.files[i].name, Ready)
  {
    Reachable(cfg, run);
    var t := Exec(cfg, INIT, run);
    forall j | 0 <= j < |t.files|
      ensures !(t.files[j].name == t.files[i].name && t.files[j].place == Ready)
    {
      assert i < j ==> Apart(t.files[i], t.files[j]);
      assert j < i ==> Apart(t.files[j], t.files[i]);
    }
  }

  /** A file is deleted only after all its bytes were stored by a successful upload, unless no line was ever written to it. */
  lemma DeletedOnlyAfterUpload(cfg: Config, run: seq<Action>, i: nat)
    requires WellFormed(cfg) && Legal(cfg, INIT, run)
    requires var t := Exec(cfg, INIT, run); i < |t.files| && t.files[i].place.Gone?
    ensures var f := Exec(cfg, INIT, run).files[i];
            f.lines == [] || (f.stored == Some(f.data) && Lines(cfg, f.lines) <= f.data)
  {
    Reachable(cfg, run);
    assert FileInv(cfg, Exec(cfg, INIT, run).gen, Exec(cfg, INIT, run).files[i]);
  }
}
