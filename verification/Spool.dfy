/**
 The connection-log spool (internal/store/spool.go) as a machine over its I/O steps: a start that recovers
 the directory, a writer goroutine that appends one line per event, an uploader goroutine that stores and
 deletes finished files, and a crash that may come after any step. Every read, write, truncate, sync,
 rename, remove and upload may fail.

 Reading the sizes of ready files at the start is taken to succeed. A file record stays in `files` after the
 file was removed, so a file's index is the order of its creation.
 */
module Spool {
  import opened Basics

  const NEWLINE: int := 10
  const WINDOW: int := 300 * SECOND
  const NAME_TRIES: nat := 1000

  /** `line` is the encoded event with its newline. */
  datatype Config = Config(line: nat -> seq<int>, maxBytes: int, maxFile: int, queue: nat)

  datatype Name = Name(start: int, node: string)

  /** A file under its `.part` name, under its ready name, or removed. */
  datatype Place = Part | Ready | Gone(uploaded: bool)

  /**
   `lines` are the events whose lines were written, `torn` of which event and how many bytes an unfinished
   write left behind; `maker` is the process that created the file and `tracked` the last that counted it;
   `stored` is what the last successful upload stored.
   */
  datatype File = File(name: Name, data: seq<int>, place: Place, lines: seq<nat>, of: nat, cut: nat, maker: nat, tracked: nat, stored: Option<seq<int>>)

  datatype Rec = Scan | Keep(k: nat) | Cut(k: nat) | Renamed(k: nat)

  datatype Mode = Down | Recovering(next: nat, rec: Rec) | Running

  datatype Active = Active(file: nat, size: int, win: int)

  datatype Next = ToIdle | ToStop | ToCheck(ev: nat, now: int)

  datatype Pc =
    | Idle
    | Has(ev: nat)
    | Rotating(next: Next)
    | Checking(ev: nat, now: int)
    | Naming(ev: nat, now: int, start: int, tries: nat)
    | Creating(ev: nat, now: int, start: int, tries: nat)
    | Writing(ev: nat)
    | Wrote(ev: nat, n: nat, ok: bool)
    | Stopped

  datatype Up = Waiting | Pass(todo: seq<nat>) | Sending(file: nat, todo: seq<nat>) | Sent(file: nat, todo: seq<nat>) | Freed(size: nat, todo: seq<nat>)

  datatype Fate = Queued | InHand | Dropped | Written(file: nat, pos: nat) | Lost

  datatype Sys = Sys(gen: nat, mode: Mode, node: string, files: seq<File>, counter: int, recovered: int, lastStart: Option<int>,
                     active: Option<Active>, pc: Pc, up: Up, queue: seq<nat>, closed: bool, abandon: bool, fate: seq<Fate>, drops: nat)

  datatype Action =
    | Boot(node: string)
    | RecSkip
    | RecCount
    | RecRead(ok: bool)
    | RecRemove(ok: bool)
    | RecTruncate(ok: bool)
    | RecRename(ok: bool)
    | RecAdd
    | RecDone
    | Submit
    | CloseQueue
    | SetAbandon
    | Take
    | EncodeFail
    | Clock(now: int)
    | CheckCap
    | Lstat(ok: bool)
    | Create(ok: bool)
    | Write(n: nat, ok: bool)
    | Account
    | Truncate(ok: bool)
    | Tick(now: int)
    | Finish
    | Rotate(ok: bool)
    | List(order: seq<nat>)
    | OpenFile(ok: bool)
    | Put(ok: bool)
    | Remove(ok: bool)
    | Subtract
    | EndPass
    | Crash

  // ----- bytes -----

  /** One line: a newline at the end and nowhere else. */
  ghost predicate IsLine(b: seq<int>) {
    |b| > 0 && b[|b| - 1] == NEWLINE && forall k :: 0 <= k < |b| - 1 ==> b[k] != NEWLINE
  }

  ghost predicate WellFormed(cfg: Config) {
    forall e :: IsLine(cfg.line(e))
  }

  /** The bytes of the events' lines, in order. */
  function Lines(cfg: Config, es: seq<nat>): seq<int> {
    if es == [] then [] else Lines(cfg, es[..|es| - 1]) + cfg.line(es[|es| - 1])
  }

  /** One past the last newline, 0 when there is none. */
  function LastLineEnd(b: seq<int>): (k: nat)
    ensures k <= |b|
  {
    if b == [] then 0 else if b[|b| - 1] == NEWLINE then |b| else LastLineEnd(b[..|b| - 1])
  }

  // ----- the directory -----

  predicate Exists(files: seq<File>, name: Name, place: Place) {
    exists i :: 0 <= i < |files| && files[i].name == name && files[i].place == place
  }

  /** A directory listing of the ready files, sorted by name: names begin with a timestamp of fixed width. */
  predicate IsListing(files: seq<File>, order: seq<nat>) {
    && (forall p :: 0 <= p < |order| ==> order[p] < |files| && files[order[p]].place == Ready)
    && (forall i :: 0 <= i < |files| && files[i].place == Ready ==> i in order)
    && (forall p, q :: 0 <= p < q < |order| ==> order[p] != order[q] && files[order[p]].name.start <= files[order[q]].name.start)
  }

  predicate InWindow(a: Active, now: int) {
    a.win <= now < a.win + WINDOW
  }

  // ----- the machine -----

  predicate HasEvent(pc: Pc) {
    pc.Has? || (pc.Rotating? && pc.next.ToCheck?) || pc.Checking? || pc.Naming? || pc.Creating? || pc.Writing? || pc.Wrote?
  }

  function EventOf(pc: Pc): nat
    requires HasEvent(pc)
  {
    if pc.Rotating? then pc.next.ev else pc.ev
  }

  /** The file the writer has open is there to write to. */
  predicate HasFile(s: Sys) {
    s.active.Some? && s.active.value.file < |s.files|
  }

  predicate RecEnabled(s: Sys, a: Action) {
    s.mode.Recovering? && s.mode.next < |s.files| &&
    var rec, f := s.mode.rec, s.files[s.mode.next];
    match a
    case RecSkip => rec.Scan? && f.place.Gone?
    case RecCount => rec.Scan? && f.place.Ready?
    case RecRead(_) => rec.Scan? && f.place.Part?
    case RecRemove(_) => rec == Keep(0)
    case RecTruncate(_) => rec.Keep? && 0 < rec.k < |f.data|
    case RecRename(_) => (rec.Keep? && 0 < rec.k == |f.data|) || rec.Cut?
    case RecAdd => rec.Renamed?
    case _ => false
  }

  predicate PrepareEnabled(s: Sys, a: Action) {
    match a
    case Take => s.pc.Idle? && s.queue != [] && s.queue[0] < |s.fate|
    case EncodeFail => s.pc.Has? && s.pc.ev < |s.fate|
    case Clock(_) => s.pc.Has?
    case CheckCap => s.pc.Checking? && s.pc.ev < |s.fate|
    case _ => false
  }

  predicate OpenEnabled(s: Sys, a: Action) {
    match a
    case Lstat(_) => s.pc.Naming? && s.pc.ev < |s.fate|
    case Create(_) => s.pc.Creating? && s.pc.ev < |s.fate|
    case _ => false
  }

  predicate WriteEnabled(cfg: Config, s: Sys, a: Action) {
    match a
    case Write(n, ok) => s.pc.Writing? && HasFile(s) && n <= |cfg.line(s.pc.ev)| && (ok ==> n == |cfg.line(s.pc.ev)|)
    case Account => s.pc.Wrote? && s.pc.ok && HasFile(s) && s.pc.ev < |s.fate|
    case Truncate(_) => s.pc.Wrote? && !s.pc.ok && HasFile(s) && s.pc.ev < |s.fate| && 0 <= s.active.value.size <= |s.files[s.active.value.file].data|
    case Rotate(_) => s.pc.Rotating? && (s.active.Some? ==> HasFile(s))
    case _ => false
  }

  predicate UploadEnabled(s: Sys, a: Action) {
    match a
    case List(order) => s.up.Waiting? && IsListing(s.files, order)
    case OpenFile(_) => s.up.Pass? && s.up.todo != []
    case Put(_) => s.up.Sending? && s.up.file < |s.files|
    case Remove(_) => s.up.Sent? && s.up.file < |s.files|
    case Subtract => s.up.Freed?
    case EndPass => s.up.Pass?
    case _ => false
  }

  /** What else may happen: the process starts or dies, an event comes in, the writer's ticker fires. */
  predicate OtherEnabled(s: Sys, a: Action) {
    match a
    case Boot(_) => s.mode.Down?
    case RecDone => s.mode.Recovering? && s.mode.rec.Scan? && s.mode.next == |s.files|
    case Submit => s.mode.Running?
    case CloseQueue => s.mode.Running?
    case SetAbandon => s.mode.Running? && s.closed
    case Tick(now) => s.mode.Running? && s.pc.Idle? && s.active.Some? && !InWindow(s.active.value, now)
    case Finish => s.mode.Running? && s.pc.Idle? && s.closed && s.queue == []
    case Crash => true
    case _ => false
  }

  predicate Enabled(cfg: Config, s: Sys, a: Action) {
    RecEnabled(s, a) || OtherEnabled(s, a) || (s.mode.Running? && (PrepareEnabled(s, a) || OpenEnabled(s, a) || WriteEnabled(cfg, s, a) || UploadEnabled(s, a)))
  }

  function Drop(s: Sys, ev: nat): Sys
    requires ev < |s.fate|
  {
    s.(fate := s.fate[ev := Dropped], drops := s.drops + 1, pc := Idle)
  }

  function Continue(next: Next): Pc {
    match next
    case ToIdle => Idle
    case ToStop => Stopped
    case ToCheck(ev, now) => Checking(ev, now)
  }

  /** recoverSpool and recoverPart. */
  function RecoveryStep(s: Sys, a: Action): Sys
    requires RecEnabled(s, a)
  {
    var i, f := s.mode.next, s.files[s.mode.next];
    var on := s.(mode := Recovering(i + 1, Scan));
    match a
    case RecSkip => on
    case RecCount => on.(counter := s.counter + |f.data|, files := s.files[i := f.(tracked := s.gen)])
    case RecRead(ok) => if ok then s.(mode := Recovering(i, Keep(LastLineEnd(f.data)))) else on
    case RecRemove(ok) => if ok then on.(files := s.files[i := f.(place := Gone(false))]) else on
    case RecTruncate(ok) =>
      var k := s.mode.rec.k;
      if ok then s.(mode := Recovering(i, Cut(k)), files := s.files[i := f.(data := f.data[..k], cut := 0)]) else on
    case RecRename(ok) => if ok then s.(mode := Recovering(i, Renamed(s.mode.rec.k)), files := s.files[i := f.(place := Ready)]) else on
    case RecAdd => on.(counter := s.counter + s.mode.rec.k, files := s.files[i := f.(tracked := s.gen)])
  }

  /** The steps of append that come before the file is opened. */
  function PrepareStep(cfg: Config, s: Sys, a: Action): Sys
    requires PrepareEnabled(s, a)
  {
    match a
    case Take =>
      var rest := s.(queue := s.queue[1..]);
      if s.abandon then Drop(rest, s.queue[0]) else rest.(pc := Has(s.queue[0]), fate := s.fate[s.queue[0] := InHand])
    case EncodeFail => Drop(s, s.pc.ev)
    case Clock(now) =>
      if s.active.Some? && !InWindow(s.active.value, now) then s.(pc := Rotating(ToCheck(s.pc.ev, now))) else s.(pc := Checking(s.pc.ev, now))
    case CheckCap =>
      if s.counter + |cfg.line(s.pc.ev)| > cfg.maxBytes then Drop(s, s.pc.ev)
      else if s.active.Some? then s.(pc := Writing(s.pc.ev))
      else
        var start := if s.lastStart.Some? && s.pc.now <= s.lastStart.value then s.lastStart.value + 1 else s.pc.now;
        s.(pc := Naming(s.pc.ev, s.pc.now, start, 0))
  }

  function NewFile(s: Sys): File
    requires s.pc.Creating?
  {
    File(Name(s.pc.start, s.node), [], Part, [], 0, 0, s.gen, s.gen, None)
  }

  /** open: the first free name from `start` on. */
  function OpenStep(s: Sys, a: Action): Sys
    requires OpenEnabled(s, a)
  {
    match a
    case Lstat(ok) =>
      if s.pc.tries >= NAME_TRIES || !ok then Drop(s, s.pc.ev)
      else if Exists(s.files, Name(s.pc.start, s.node), Ready) then s.(pc := Naming(s.pc.ev, s.pc.now, s.pc.start + 1, s.pc.tries + 1))
      else s.(pc := Creating(s.pc.ev, s.pc.now, s.pc.start, s.pc.tries))
    case Create(ok) =>
      if Exists(s.files, Name(s.pc.start, s.node), Part) then s.(pc := Naming(s.pc.ev, s.pc.now, s.pc.start + 1, s.pc.tries + 1))
      else if !ok then Drop(s, s.pc.ev)
      else s.(files := s.files + [NewFile(s)],
              active := Some(Active(|s.files|, 0, s.pc.now - s.pc.now % WINDOW)), lastStart := Some(s.pc.start), pc := Writing(s.pc.ev))
  }

  /** The write of append, its undoing, and rotate. A failed write is dropped and counted with its undoing. */
  function WriteStep(cfg: Config, s: Sys, a: Action): Sys
    requires WriteEnabled(cfg, s, a)
  {
    if s.active.None? then s.(pc := Continue(s.pc.next))
    else
      var w, f := s.active.value, s.files[s.active.value.file];
      match a
      case Write(n, ok) =>
        s.(files := s.files[w.file := f.(data := f.data + cfg.line(s.pc.ev)[..n], of := s.pc.ev, cut := n)], pc := Wrote(s.pc.ev, n, ok))
      case Account =>
        s.(files := s.files[w.file := f.(lines := f.lines + [s.pc.ev], cut := 0)], fate := s.fate[s.pc.ev := Written(w.file, |f.lines|)],
           active := Some(w.(size := w.size + s.pc.n)), counter := s.counter + s.pc.n,
           pc := if w.size + s.pc.n >= cfg.maxFile then Rotating(ToIdle) else Idle)
      case Truncate(ok) =>
        if ok then Drop(s, s.pc.ev).(files := s.files[w.file := f.(data := f.data[..w.size], cut := 0)])
        else Drop(s, s.pc.ev).(active := Some(w.(size := w.size + s.pc.n)), counter := s.counter + s.pc.n, pc := Rotating(ToIdle))
      case Rotate(ok) =>
        s.(active := None, pc := Continue(s.pc.next),
           files := if ok then s.files[w.file := f.(place := if w.size == 0 then Gone(false) else Ready)] else s.files)
  }

  /** pass and uploadFile. A failed upload ends the pass. */
  function UploadStep(s: Sys, a: Action): Sys
    requires UploadEnabled(s, a)
  {
    match a
    case List(order) => s.(up := Pass(order))
    case OpenFile(ok) => s.(up := if ok then Sending(s.up.todo[0], s.up.todo[1..]) else Pass(s.up.todo[1..]))
    case Put(ok) =>
      var f := s.files[s.up.file];
      if ok then s.(up := Sent(s.up.file, s.up.todo), files := s.files[s.up.file := f.(stored := Some(f.data))]) else s.(up := Waiting)
    case Remove(ok) =>
      var f := s.files[s.up.file];
      if ok then s.(up := Freed(|f.data|, s.up.todo), files := s.files[s.up.file := f.(place := Gone(true))]) else s.(up := Pass(s.up.todo))
    case Subtract => s.(up := Pass(s.up.todo), counter := s.counter - s.up.size)
    case EndPass => s.(up := Waiting)
  }

  function Forget(fate: Fate): Fate {
    if fate.Queued? || fate.InHand? then Lost else fate
  }

  function OtherStep(cfg: Config, s: Sys, a: Action): Sys
    requires OtherEnabled(s, a)
  {
    match a
    case Boot(node) => s.(mode := Recovering(0, Scan), node := node)
    case RecDone => s.(mode := Running, recovered := s.counter)
    case Submit =>
      if s.closed || |s.queue| >= cfg.queue then s.(fate := s.fate + [Dropped], drops := s.drops + 1)
      else s.(fate := s.fate + [Queued], queue := s.queue + [|s.fate|])
    case CloseQueue => s.(closed := true)
    case SetAbandon => s.(abandon := true)
    case Tick(_) => s.(pc := Rotating(ToIdle))
    case Finish => s.(pc := Rotating(ToStop))
    case Crash =>
      s.(gen := s.gen + 1, mode := Down, counter := 0, recovered := 0, lastStart := None, active := None, pc := Idle, up := Waiting,
         queue := [], closed := false, abandon := false, fate := seq(|s.fate|, i requires 0 <= i < |s.fate| => Forget(s.fate[i])))
  }

  function Step(cfg: Config, s: Sys, a: Action): Sys
    requires Enabled(cfg, s, a)
  {
    if RecEnabled(s, a) then RecoveryStep(s, a)
    else if OtherEnabled(s, a) then OtherStep(cfg, s, a)
    else if PrepareEnabled(s, a) then PrepareStep(cfg, s, a)
    else if OpenEnabled(s, a) then OpenStep(s, a)
    else if WriteEnabled(cfg, s, a) then WriteStep(cfg, s, a)
    else UploadStep(s, a)
  }

  /** An empty directory and no process. Process numbers start at 1. */
  const INIT := Sys(1, Down, "", [], 0, 0, None, None, Idle, Waiting, [], false, false, [], 0)

  predicate Legal(cfg: Config, s: Sys, run: seq<Action>)
    decreases |run|
  {
    run == [] || (Enabled(cfg, s, run[0]) && Legal(cfg, Step(cfg, s, run[0]), run[1..]))
  }

  function Exec(cfg: Config, s: Sys, run: seq<Action>): Sys
    requires Legal(cfg, s, run)
    decreases |run|
  {
    if run == [] then s else Exec(cfg, Step(cfg, s, run[0]), run[1..])
  }
}
