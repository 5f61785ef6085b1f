/**
 Claiming a name (internal/enroll/enroll.go): a lock key set only if absent and never released, a read,
 and an unconditional write to the registry, all under a deadline shorter than the lock. Any number of
 enrollments claim any names in any interleaving; a write may land although it is reported as failed,
 at any time, and a claim whose certificate cannot be signed deletes the name again.
 */
module NameClaim {
  import opened Basics

  /** timeout: the claim deadline; settle: the lifetime of the lock. The configuration demands settle > timeout. */
  datatype Config = Config(timeout: int, settle: int) {
    predicate Valid() {
      0 < timeout < settle
    }
  }

  datatype Pc =
    | Fresh
    | Locked                     // the lock was set
    | Checked                    // the registry was read: the name is free
    | Putting(landed: bool)      // the write is on its way
    | Failed(landed: bool)       // the write was reported failed; it may still land
    | Claimed                    // the write was reported done in time
    | Told                       // the phone has its identity certificate for the name
    | Rolling                    // signing failed; the delete is on its way
    | Over                       // the claim ended without the name

  datatype Claim = Claim(name: string, pc: Pc, deadline: int, until: int)

  datatype Lock = Lock(holder: nat, until: int)

  /** A write that reached the registry; late, if its claim's lock had expired by then. */
  datatype Write = Write(i: nat, name: string, late: bool)

  /** The registry maps a name to the claim whose record it holds; `writes` is the history of its writes. */
  datatype Sys = Sys(time: int, locks: map<string, Lock>, registry: map<string, nat>, claims: seq<Claim>, writes: seq<Write>)

  datatype Action =
    | SetNX(i: nat, begun: int, at: int)
    | Get(i: nat, at: int)
    | Put(i: nat, at: int)
    | Land(i: nat, at: int)
    | PutDone(i: nat, at: int)
    | PutFailed(i: nat, at: int)
    | Sign(i: nat, ok: bool, at: int)
    | DeleteLands(i: nat, at: int)
    | Record(i: nat, at: int)      // an issued certificate is recorded under the owner's name

  predicate LockHeld(s: Sys, name: string, at: int) {
    name in s.locks && at < s.locks[name].until
  }

  predicate Enabled(cfg: Config, s: Sys, a: Action) {
    && a.at >= s.time && a.i < |s.claims|
    && var c := s.claims[a.i];
       match a
       case SetNX(_, begun, at) => c.pc.Fresh? && begun <= at < begun + cfg.timeout
       case Get(_, at) => c.pc.Locked? && at < c.deadline
       case Put(_, at) => c.pc.Checked? && at < c.deadline
       case Land(_, at) => c.pc == Putting(false) || c.pc == Failed(false)
       case PutDone(_, at) => c.pc == Putting(true) && at < c.deadline
       case PutFailed(_, at) => c.pc.Putting?
       case Sign(_, _, _) => c.pc.Claimed?
       case DeleteLands(_, _) => c.pc.Rolling?
       case Record(_, _) => c.pc.Told?
  }

  function Step(cfg: Config, s: Sys, a: Action): Sys
    requires Enabled(cfg, s, a)
  {
    var c := s.claims[a.i];
    var s := s.(time := a.at);
    match a
    case SetNX(i, begun, at) =>
      if LockHeld(s, c.name, at) then s.(claims := s.claims[i := c.(pc := Over)])
      else s.(locks := s.locks[c.name := Lock(i, at + cfg.settle)],
              claims := s.claims[i := c.(pc := Locked, deadline := begun + cfg.timeout, until := at + cfg.settle)])
    case Get(i, _) => s.(claims := s.claims[i := c.(pc := if c.name in s.registry then Over else Checked)])
    case Put(i, _) => s.(claims := s.claims[i := c.(pc := Putting(false))])
    case Land(i, _) =>
      s.(registry := s.registry[c.name := i], writes := s.writes + [Write(i, c.name, a.at >= c.until)],
         claims := s.claims[i := c.(pc := if c.pc.Putting? then Putting(true) else Failed(true))])
    case PutDone(i, _) => s.(claims := s.claims[i := c.(pc := Claimed)])
    case PutFailed(i, _) => s.(claims := s.claims[i := c.(pc := Failed(c.pc.landed))])
    case Sign(i, ok, _) => s.(claims := s.claims[i := c.(pc := if ok then Told else Rolling)])
    case DeleteLands(i, _) => s.(registry := s.registry - {c.name}, claims := s.claims[i := c.(pc := Over)])
    case Record(i, _) => s.(registry := s.registry[c.name := i], writes := s.writes + [Write(i, c.name, false)])
  }

  predicate Legal(cfg: Config, s: Sys, run: seq<Action>)
    decreases |run|
  {
    run == [] || (Enabled(cfg, s, run[0]) && Legal(cfg, Step(cfg, s, run[0]), run[1..]))
  }

  function Exec(cfg: Config, s: Sys, run: seq<Action>): Sys
    requires Legal(cfg, s, run)
    decreases |run|
  {
    if run == [] then s else Exec(cfg, Step(cfg, s, run[0]), run[1..])
  }

  ghost predicate Init(s: Sys) {
    s.locks == map[] && s.registry == map[] && s.writes == [] && forall i :: 0 <= i < |s.claims| ==> s.claims[i].pc.Fresh?
  }

  // ----- the invariant -----

  /** The claim is past its lock and before its deadline. */
  predicate Running(c: Claim, time: int) {
    (c.pc.Locked? || c.pc.Checked? || c.pc.Putting?) && time < c.deadline
  }

  /** The claim owns the name, or its write has landed in time for it to. */
  predicate Wins(c: Claim, time: int) {
    (c.pc == Putting(true) && time < c.deadline) || c.pc.Claimed? || c.pc.Told? || c.pc.Rolling?
  }

  ghost predicate LockOk(s: Sys, i: nat)
    requires i < |s.claims|
  {
    var c := s.claims[i];
    && (!c.pc.Fresh? && !c.pc.Over? ==> c.deadline < c.until)
    && (Running(c, s.time) ==> c.name in s.locks && s.locks[c.name] == Lock(i, c.until))
  }

  ghost predicate Present(s: Sys, i: nat)
    requires i < |s.claims|
  {
    Wins(s.claims[i], s.time) ==> s.claims[i].name in s.registry
  }

  /** If j wins a name, no other claim on it wins, or has read that the name is free and can still write in time. */
  ghost predicate Apart(s: Sys, i: nat, j: nat)
    requires i < |s.claims| && j < |s.claims|
  {
    var c := s.claims[i];
    i != j && c.name == s.claims[j].name && Wins(s.claims[j], s.time) ==>
      !Wins(c, s.time) && !(Running(c, s.time) && (c.pc.Checked? || c.pc.Putting?))
  }

  ghost predicate Inv(s: Sys) {
    && (forall i :: 0 <= i < |s.claims| ==> LockOk(s, i) && Present(s, i))
    && (forall i, j :: 0 <= i < |s.claims| && 0 <= j < |s.claims| ==> Apart(s, i, j))
  }

  lemma StepKeepsLockOk(cfg: Config, s: Sys, a: Action, i: nat)
    requires cfg.Valid() && Inv(s) && Enabled(cfg, s, a) && i < |s.claims|
    ensures LockOk(Step(cfg, s, a), i)
  {
    assert LockOk(s, i);
  }

  lemma StepKeepsPresent(cfg: Config, s: Sys, a: Action, i: nat)
    requires cfg.Valid() && Inv(s) && Enabled(cfg, s, a) && i < |s.claims|
    ensures Present(Step(cfg, s, a), i)
  {
    assert Present(s, i) && Present(s, a.i) && Apart(s, i, a.i);
  }

  /** Two claims on one name that both hold its lock are the same claim. */
  lemma RunningIsExclusive(s: Sys, i: nat, j: nat)
    requires i < |s.claims| && j < |s.claims| && LockOk(s, i) && LockOk(s, j)
    requires s.claims[i].name == s.claims[j].name && Running(s.claims[i], s.time) && Running(s.claims[j], s.time)
    ensures i == j
  {
  }

  lemma StepKeepsApart(cfg: Config, s: Sys, a: Action, i: nat, j: nat)
    requires cfg.Valid() && Enabled(cfg, s, a) && i < |s.claims| && j < |s.claims|
    requires Apart(s, i, j) && Apart(s, j, i) && Present(s, i) && Present(s, j) && LockOk(s, i) && LockOk(s, j)
    ensures Apart(Step(cfg, s, a), i, j)
  {
    if s.claims[i].name == s.claims[j].name && Running(s.claims[i], s.time) && Running(s.claims[j], s.time) {
      RunningIsExclusive(s, i, j);
    }
  }

  lemma StepKeepsInv(cfg: Config, s: Sys, a: Action)
    requires cfg.Valid() && Inv(s) && Enabled(cfg, s, a)
    ensures Inv(Step(cfg, s, a))
  {
    hide LockOk, Present, Apart;
    var s' := Step(cfg, s, a);
    forall i | 0 <= i < |s'.claims|
      ensures LockOk(s', i) && Present(s', i)
    {
      StepKeepsLockOk(cfg, s, a, i);
      StepKeepsPresent(cfg, s, a, i);
    }
    forall i, j | 0 <= i < |s'.claims| && 0 <= j < |s'.claims|
      ensures Apart(s', i, j)
    {
      assert Apart(s, i, j) && Apart(s, j, i) && Present(s, i) && Present(s, j) && LockOk(s, i) && LockOk(s, j);
      StepKeepsApart(cfg, s, a, i, j);
    }
  }

  lemma {:induction false} RunKeepsInv(cfg: Config, s: Sys, run: seq<Action>)
    requires cfg.Valid() && Inv(s) && Legal(cfg, s, run)
    ensures Inv(Exec(cfg, s, run))
    decreases |run|
  {
    if run != [] {
      StepKeepsInv(cfg, s, run[0]);
      RunKeepsInv(cfg, Step(cfg, s, run[0]), run[1..]);
    }
  }

  /**
   In every run at most one claim is told it owns a name, and the name stays in the registry; this
   holds whenever a write reported as failed lands, even after its lock has expired.
   */
  lemma NamesAreUnique(cfg: Config, s0: Sys, run: seq<Action>, i: nat, j: nat)
    requires cfg.Valid() && Init(s0) && Legal(cfg, s0, run)
    requires var s := Exec(cfg, s0, run);
             i < |s.claims| && j < |s.claims| && s.claims[i].pc.Told? && s.claims[j].pc.Told? && s.claims[i].name == s.claims[j].name
    ensures i == j && Exec(cfg, s0, run).claims[i].name in Exec(cfg, s0, run).registry
  {
    RunKeepsInv(cfg, s0, run);
    var s := Exec(cfg, s0, run);
    assert Apart(s, i, j) && Present(s, i);
  }

  // ----- whose record it is -----

  /** The claim of the last write on a name. */
  function LastWriter(writes: seq<Write>, name: string): Option<nat> {
    if writes == [] then None
    else if writes[|writes| - 1].name == name then Some(writes[|writes| - 1].i)
    else LastWriter(writes[..|writes| - 1], name)
  }

  lemma LastWriterAppend(writes: seq<Write>, w: Write, name: string)
    ensures LastWriter(writes + [w], name) == if w.name == name then Some(w.i) else LastWriter(writes, name)
  {
    assert (writes + [w])[..|writes|] == writes;
  }

  lemma {:induction false} LastWriterAt(writes: seq<Write>, name: string) returns (m: nat)
    requires LastWriter(writes, name).Some?
    ensures m < |writes| && writes[m].name == name && Some(writes[m].i) == LastWriter(writes, name)
    ensures forall k :: m < k < |writes| ==> writes[k].name != name
  {
    if writes[|writes| - 1].name == name {
      m := |writes| - 1;
    } else {
      m := LastWriterAt(writes[..|writes| - 1], name);
    }
  }

  /** The claim has a lock that it set and that has not expired. */
  predicate Holding(c: Claim, time: int) {
    (c.pc.Locked? || c.pc.Checked? || c.pc.Putting? || c.pc.Failed?) && time < c.until
  }

  /** The claim found the name free and its write has not landed yet. */
  predicate MayWrite(c: Claim) {
    c.pc.Checked? || c.pc == Putting(false) || c.pc == Failed(false)
  }

  ghost predicate HoldsLock(s: Sys, i: nat)
    requires i < |s.claims|
  {
    var c := s.claims[i];
    Holding(c, s.time) ==> c.name in s.locks && s.locks[c.name] == Lock(i, c.until)
  }

  /** Once i wins a name, the lock of any other claim that can still write it has expired. */
  ghost predicate OthersAreLate(s: Sys, i: nat, j: nat)
    requires i < |s.claims| && j < |s.claims|
  {
    Wins(s.claims[i], s.time) && i != j && s.claims[j].name == s.claims[i].name && MayWrite(s.claims[j]) ==> s.time >= s.claims[j].until
  }

  /** A claim that wins has written its name, and what others wrote on the name after that was late. */
  ghost predicate LateAfter(s: Sys, i: nat)
    requires i < |s.claims|
  {
    Wins(s.claims[i], s.time) ==>
      && (exists k :: 0 <= k < |s.writes| && s.writes[k].i == i)
      && (forall k, m :: 0 <= k < m < |s.writes| && s.writes[k].i == i && s.writes[m].name == s.claims[i].name && s.writes[m].i != i ==> s.writes[m].late)
  }

  /** A claim whose write has not landed is not in the history. */
  ghost predicate Silent(s: Sys, i: nat)
    requires i < |s.claims|
  {
    s.claims[i].pc.Fresh? || s.claims[i].pc.Locked? || MayWrite(s.claims[i]) ==> forall k :: 0 <= k < |s.writes| ==> s.writes[k].i != i
  }

  ghost predicate History(s: Sys) {
    && (forall n :: n in s.registry ==> LastWriter(s.writes, n) == Some(s.registry[n]))
    && (forall k :: 0 <= k < |s.writes| ==> s.writes[k].i < |s.claims| && s.writes[k].name == s.claims[s.writes[k].i].name)
  }

  ghost predicate RecordInv(s: Sys) {
    && Inv(s) && History(s)
    && (forall i :: 0 <= i < |s.claims| ==> HoldsLock(s, i) && LateAfter(s, i) && Silent(s, i))
    && (forall i, j :: 0 <= i < |s.claims| && 0 <= j < |s.claims| ==> OthersAreLate(s, i, j))
  }

  lemma StepKeepsHistory(cfg: Config, s: Sys, a: Action)
    requires History(s) && Enabled(cfg, s, a)
    ensures History(Step(cfg, s, a))
  {
    var s' := Step(cfg, s, a);
    if a.Land? || a.Record? {
      forall n | n in s'.registry
        ensures LastWriter(s'.writes, n) == Some(s'.registry[n])
      {
        LastWriterAppend(s.writes, s'.writes[|s.writes|], n);
      }
    }
  }

  lemma StepKeepsHoldsLock(cfg: Config, s: Sys, a: Action, i: nat)
    requires cfg.Valid() && Enabled(cfg, s, a) && i < |s.claims| && HoldsLock(s, i)
    ensures HoldsLock(Step(cfg, s, a), i)
  {
  }

  lemma StepKeepsOthersLate(cfg: Config, s: Sys, a: Action, i: nat, j: nat)
    requires cfg.Valid() && Enabled(cfg, s, a) && i < |s.claims| && j < |s.claims|
    requires LockOk(s, i) && Present(s, i) && HoldsLock(s, i) && HoldsLock(s, j) && OthersAreLate(s, i, j)
    ensures OthersAreLate(Step(cfg, s, a), i, j)
  {
  }

  lemma StepKeepsLateAfter(cfg: Config, s: Sys, a: Action, i: nat)
    requires Enabled(cfg, s, a) && i < |s.claims| && LateAfter(s, i) && OthersAreLate(s, i, a.i) && Apart(s, a.i, i) && Silent(s, i)
    ensures LateAfter(Step(cfg, s, a), i)
  {
    var s' := Step(cfg, s, a);
    if Wins(s'.claims[i], s'.time) {
      if Wins(s.claims[i], s.time) {
        var k :| 0 <= k < |s.writes| && s.writes[k].i == i;
        assert s'.writes[k].i == i;
      } else {
        assert s'.writes[|s.writes|].i == i;
      }
    }
  }

  lemma StepKeepsSilent(cfg: Config, s: Sys, a: Action, i: nat)
    requires Enabled(cfg, s, a) && i < |s.claims| && Silent(s, i)
    ensures Silent(Step(cfg, s, a), i)
  {
  }

  lemma StepKeepsRecordInv(cfg: Config, s: Sys, a: Action)
    requires cfg.Valid() && RecordInv(s) && Enabled(cfg, s, a)
    ensures RecordInv(Step(cfg, s, a))
  {
    hide LockOk, Present, Apart, HoldsLock, LateAfter, Silent, OthersAreLate, History;
    var s' := Step(cfg, s, a);
    StepKeepsInv(cfg, s, a);
    StepKeepsHistory(cfg, s, a);
    forall i | 0 <= i < |s'.claims|
      ensures HoldsLock(s', i) && LateAfter(s', i) && Silent(s', i)
    {
      assert HoldsLock(s, i) && LateAfter(s, i) && Silent(s, i) && OthersAreLate(s, i, a.i) && Apart(s, a.i, i);
      StepKeepsHoldsLock(cfg, s, a, i);
      StepKeepsLateAfter(cfg, s, a, i);
      StepKeepsSilent(cfg, s, a, i);
    }
    forall i, j | 0 <= i < |s'.claims| && 0 <= j < |s'.claims|
      ensures OthersAreLate(s', i, j)
    {
      assert LockOk(s, i) && Present(s, i) && HoldsLock(s, i) && HoldsLock(s, j) && OthersAreLate(s, i, j);
      StepKeepsOthersLate(cfg, s, a, i, j);
    }
  }

  lemma {:induction false} RunKeepsRecordInv(cfg: Config, s: Sys, run: seq<Action>)
    requires cfg.Valid() && RecordInv(s) && Legal(cfg, s, run)
    ensures RecordInv(Exec(cfg, s, run))
    decreases |run|
  {
    if run != [] {
      StepKeepsRecordInv(cfg, s, run[0]);
      RunKeepsRecordInv(cfg, Step(cfg, s, run[0]), run[1..]);
    }
  }

  /** A late write of another claim on the owner's name, after all of the owner's own. */
  predicate Replaces(s: Sys, i: nat, m: nat)
    requires i < |s.claims|
  {
    && m < |s.writes| && s.writes[m].late && s.writes[m].i != i && s.writes[m].name == s.claims[i].name
    && forall k :: m < k < |s.writes| ==> s.writes[k].i != i
  }

  /**
   Whose record the registry holds, in every run: a record is there under the name of a claim that was told it owns it,
   and it is another claim's if and only if that claim's write landed after its own lock had expired and after the last
   write of the owner.
   */
  lemma OwnersKeepTheirRecord(cfg: Config, s0: Sys, run: seq<Action>, i: nat)
    requires cfg.Valid() && Init(s0) && Legal(cfg, s0, run)
    requires i < |Exec(cfg, s0, run).claims| && Exec(cfg, s0, run).claims[i].pc.Told?
    ensures var s := Exec(cfg, s0, run);
            && s.claims[i].name in s.registry
            && (s.registry[s.claims[i].name] != i <==> exists m :: Replaces(s, i, m))
  {
    RunKeepsRecordInv(cfg, s0, run);
    RecordIsTheLastWrite(Exec(cfg, s0, run), i);
  }

  lemma RecordIsTheLastWrite(s: Sys, i: nat)
    requires RecordInv(s) && i < |s.claims| && s.claims[i].pc.Told?
    ensures s.claims[i].name in s.registry && (s.registry[s.claims[i].name] != i <==> exists m :: Replaces(s, i, m))
  {
    var n := s.claims[i].name;
    assert Present(s, i) && LateAfter(s, i);
    var own :| 0 <= own < |s.writes| && s.writes[own].i == i;
    var last := LastWriterAt(s.writes, n);
    assert s.registry[n] == s.writes[last].i;
    if s.registry[n] != i {
      assert own < last;
      assert Replaces(s, i, last);
    }
    if m :| Replaces(s, i, m) {
      assert m <= last;
    }
  }

  // ----- what a late write can do -----

  ghost predicate Reaches(cfg: Config, s0: Sys, s: Sys) {
    exists run :: Legal(cfg, s0, run) && Exec(cfg, s0, run) == s
  }

  lemma {:induction false} OneMore(cfg: Config, s: Sys, run: seq<Action>, a: Action)
    requires Legal(cfg, s, run) && Enabled(cfg, Exec(cfg, s, run), a)
    ensures Legal(cfg, s, run + [a]) && Exec(cfg, s, run + [a]) == Step(cfg, Exec(cfg, s, run), a)
    decreases |run|
  {
    if run == [] {
      assert (run + [a])[1..] == [];
    } else {
      OneMore(cfg, Step(cfg, s, run[0]), run[1..], a);
      assert (run + [a])[1..] == run[1..] + [a];
    }
  }

  lemma ReachStep(cfg: Config, s0: Sys, s: Sys, a: Action, t: Sys)
    requires Reaches(cfg, s0, s) && Enabled(cfg, s, a) && t == Step(cfg, s, a)
    ensures Reaches(cfg, s0, t)
  {
    var run :| Legal(cfg, s0, run) && Exec(cfg, s0, run) == s;
    OneMore(cfg, s0, run, a);
  }

  lemma ReachStart(cfg: Config, s: Sys)
    ensures Reaches(cfg, s, s)
  {
    assert Legal(cfg, s, []) && Exec(cfg, s, []) == s;
  }

  // ----- a name that is given back -----

  predicate HasRecord(c: Claim) {
    c.pc == Putting(true) || c.pc == Failed(true) || c.pc.Claimed? || c.pc.Told? || c.pc.Rolling?
  }

  /** Whatever claim the registry names is a claim on that name whose write landed and that was not rolled back. */
  ghost predicate NamesWriters(s: Sys) {
    forall n :: n in s.registry ==> s.registry[n] < |s.claims| && s.claims[s.registry[n]].name == n && HasRecord(s.claims[s.registry[n]])
  }

  lemma StepKeepsWriters(cfg: Config, s: Sys, a: Action)
    requires NamesWriters(s) && Enabled(cfg, s, a)
    ensures NamesWriters(Step(cfg, s, a))
  {
  }

  lemma {:induction false} RunKeepsWriters(cfg: Config, s: Sys, run: seq<Action>)
    requires NamesWriters(s) && Legal(cfg, s, run)
    ensures NamesWriters(Exec(cfg, s, run))
    decreases |run|
  {
    if run != [] {
      StepKeepsWriters(cfg, s, run[0]);
      RunKeepsWriters(cfg, Step(cfg, s, run[0]), run[1..]);
    }
  }

  /**
   In every run a name is in the registry only under a claim on that name whose write landed and that was not rolled
   back; so a name none of whose claims is one of these is free.
   */
  lemma RegistryNamesWriters(cfg: Config, s0: Sys, run: seq<Action>, n: string)
    requires Init(s0) && Legal(cfg, s0, run)
    ensures var s := Exec(cfg, s0, run);
            && (n in s.registry ==> s.registry[n] < |s.claims| && s.claims[s.registry[n]].name == n && HasRecord(s.claims[s.registry[n]]))
            && ((forall i :: 0 <= i < |s.claims| && s.claims[i].name == n ==> !HasRecord(s.claims[i])) ==> n !in s.registry)
  {
    RunKeepsWriters(cfg, s0, run);
  }

  lemma ReachThen(cfg: Config, s0: Sys, s: Sys, a: Action)
    requires Reaches(cfg, s0, s) && Enabled(cfg, s, a)
    ensures Reaches(cfg, s0, Step(cfg, s, a))
  {
    ReachStep(cfg, s0, s, a, Step(cfg, s, a));
  }

  ghost predicate Owns(s: Sys, i: nat) {
    i < |s.claims| && s.claims[i].pc.Told? && s.claims[i].name in s.registry && s.registry[s.claims[i].name] == i
  }

  lemma WriteIsDone(cfg: Config, s: Sys, i: nat, t: int)
    requires cfg.Valid() && i < |s.claims| && s.claims[i].pc.Checked? && s.time <= t < s.claims[i].deadline
    ensures exists u :: Reaches(cfg, s, u) && Owns(u, i)
  {
    hide Reaches;
    ReachStart(cfg, s);
    ReachThen(cfg, s, s, Put(i, t));
    var s1 := Step(cfg, s, Put(i, t));
    ReachThen(cfg, s, s1, Land(i, t));
    var s2 := Step(cfg, s1, Land(i, t));
    ReachThen(cfg, s, s2, PutDone(i, t));
    var s3 := Step(cfg, s2, PutDone(i, t));
    ReachThen(cfg, s, s3, Sign(i, true, t));
    assert Owns(Step(cfg, s3, Sign(i, true, t)), i);
  }

  lemma LockIsSet(cfg: Config, s: Sys, i: nat, t: int)
    requires cfg.Valid() && i < |s.claims| && s.claims[i].pc.Fresh? && s.time <= t
    requires s.claims[i].name !in s.registry && !LockHeld(s, s.claims[i].name, t)
    ensures exists u :: Reaches(cfg, s, u) && u.time == t && i < |u.claims| && u.claims[i].pc.Checked? && t < u.claims[i].deadline
  {
    hide Reaches;
    ReachStart(cfg, s);
    ReachThen(cfg, s, s, SetNX(i, t, t));
    var s1 := Step(cfg, s, SetNX(i, t, t));
    ReachThen(cfg, s, s1, Get(i, t));
  }

  lemma {:induction false} RunsJoin(cfg: Config, s: Sys, run: seq<Action>, later: seq<Action>)
    requires Legal(cfg, s, run) && Legal(cfg, Exec(cfg, s, run), later)
    ensures Legal(cfg, s, run + later) && Exec(cfg, s, run + later) == Exec(cfg, Exec(cfg, s, run), later)
    decreases |run|
  {
    hide Enabled, Step;
    if run == [] {
      assert run + later == later;
    } else {
      RunsJoin(cfg, Step(cfg, s, run[0]), run[1..], later);
      assert (run + later)[1..] == run[1..] + later;
    }
  }

  lemma ReachesJoin(cfg: Config, s: Sys, t: Sys, u: Sys)
    requires Reaches(cfg, s, t) && Reaches(cfg, t, u)
    ensures Reaches(cfg, s, u)
  {
    var run :| Legal(cfg, s, run) && Exec(cfg, s, run) == t;
    var later :| Legal(cfg, t, later) && Exec(cfg, t, later) == u;
    RunsJoin(cfg, s, run, later);
  }

  /** A free name can be had: from any state in which it is not registered and not locked, a claim on it can come to own it. */
  lemma FreeNameCanBeClaimed(cfg: Config, s: Sys, i: nat, t: int)
    requires cfg.Valid() && i < |s.claims| && s.claims[i].pc.Fresh? && s.time <= t
    requires s.claims[i].name !in s.registry && !LockHeld(s, s.claims[i].name, t)
    ensures exists u :: Reaches(cfg, s, u) && Owns(u, i)
  {
    hide Reaches, Owns;
    LockIsSet(cfg, s, i, t);
    var m :| Reaches(cfg, s, m) && m.time == t && i < |m.claims| && m.claims[i].pc.Checked? && t < m.claims[i].deadline;
    WriteIsDone(cfg, m, i, t);
    var u :| Reaches(cfg, m, u) && Owns(u, i);
    ReachesJoin(cfg, s, m, u);
  }

  /**
   A rollback frees the name, from any state: once the delete of claim i has landed and the lock has expired, another claim
   can come to own the name.
   */
  lemma RolledBackNameCanBeClaimed(cfg: Config, s: Sys, i: nat, j: nat, at: int, t: int)
    requires cfg.Valid() && Enabled(cfg, s, DeleteLands(i, at)) && j < |s.claims| && s.claims[j].pc.Fresh? && s.claims[j].name == s.claims[i].name
    requires at <= t && !LockHeld(s, s.claims[i].name, t)
    ensures exists u :: Reaches(cfg, s, u) && Owns(u, j)
  {
    hide Reaches, Owns;
    var m := Step(cfg, s, DeleteLands(i, at));
    ReachStart(cfg, s);
    ReachThen(cfg, s, s, DeleteLands(i, at));
    FreeNameCanBeClaimed(cfg, m, j, t);
    var u :| Reaches(cfg, m, u) && Owns(u, j);
    ReachesJoin(cfg, s, m, u);
  }

  // ----- a late write -----

  const EXAMPLE := Config(5, 10)
  const TWO_CLAIMS := Sys(0, map[], map[], [Claim("n", Fresh, 0, 0), Claim("n", Fresh, 0, 0)], [])

  /** The first claim's write is reported failed and has not landed yet. */
  const FIRST_FAILED := Sys(3, map["n" := Lock(0, 10)], map[], [Claim("n", Failed(false), 5, 10), Claim("n", Fresh, 0, 0)], [])

  /** After the first lock expired, the second claim got the name. */
  const SECOND_TOLD := Sys(12, map["n" := Lock(1, 20)], map["n" := 1], [Claim("n", Failed(false), 5, 10), Claim("n", Told, 15, 20)],
                           [Write(1, "n", false)])

  /** The record of the one owner was replaced by a claim that lost. */
  const REPLACED := Sys(13, map["n" := Lock(1, 20)], map["n" := 0], [Claim("n", Failed(true), 5, 10), Claim("n", Told, 15, 20)],
                        [Write(1, "n", false), Write(0, "n", true)])

  lemma FirstFails()
    ensures Reaches(EXAMPLE, TWO_CLAIMS, FIRST_FAILED)
  {
    hide Legal, Exec, Reaches;
    var c, s0 := EXAMPLE, TWO_CLAIMS;
    ReachStart(c, s0);
    var s1 := s0.(locks := map["n" := Lock(0, 10)], claims := [Claim("n", Locked, 5, 10), s0.claims[1]]);
    ReachStep(c, s0, s0, SetNX(0, 0, 0), s1);
    var s2 := s1.(time := 1, claims := [Claim("n", Checked, 5, 10), s0.claims[1]]);
    ReachStep(c, s0, s1, Get(0, 1), s2);
    var s3 := s2.(time := 2, claims := [Claim("n", Putting(false), 5, 10), s0.claims[1]]);
    ReachStep(c, s0, s2, Put(0, 2), s3);
    ReachStep(c, s0, s3, PutFailed(0, 3), FIRST_FAILED);
  }

  lemma SecondIsTold()
    ensures Reaches(EXAMPLE, TWO_CLAIMS, SECOND_TOLD)
  {
    hide Legal, Exec, Reaches;
    FirstFails();
    var c, s0, s1 := EXAMPLE, TWO_CLAIMS, FIRST_FAILED;
    var first := s1.claims[0];
    var s2 := s1.(time := 10, locks := map["n" := Lock(1, 20)], claims := [first, Claim("n", Locked, 15, 20)]);
    ReachStep(c, s0, s1, SetNX(1, 10, 10), s2);
    var s3 := s2.(time := 11, claims := [first, Claim("n", Checked, 15, 20)]);
    ReachStep(c, s0, s2, Get(1, 11), s3);
    var s4 := s3.(claims := [first, Claim("n", Putting(false), 15, 20)]);
    ReachStep(c, s0, s3, Put(1, 11), s4);
    var s5 := s4.(registry := map["n" := 1], writes := [Write(1, "n", false)], claims := [first, Claim("n", Putting(true), 15, 20)]);
    ReachStep(c, s0, s4, Land(1, 11), s5);
    var s6 := s5.(time := 12, claims := [first, Claim("n", Claimed, 15, 20)]);
    ReachStep(c, s0, s5, PutDone(1, 12), s6);
    ReachStep(c, s0, s6, Sign(1, true, 12), SECOND_TOLD);
  }

  /** A write that lands after its lock expired can replace the record of the one owner, who is still the only one told. */
  lemma LateWriteReplacesTheRecord()
    ensures Init(TWO_CLAIMS) && Reaches(EXAMPLE, TWO_CLAIMS, REPLACED)
    ensures REPLACED.claims[1].pc.Told? && !REPLACED.claims[0].pc.Told? && REPLACED.registry["n"] == 0
  {
    hide Legal, Exec, Reaches;
    SecondIsTold();
    ReachStep(EXAMPLE, TWO_CLAIMS, SECOND_TOLD, Land(0, 13), REPLACED);
  }
}
