/**
 Settling an order whose goroutine may outlive the attempt that started it (internal/acme/transport.go,
 lego_client.go, chain.go). The goroutine marks a request sent, checks whether it was abandoned, sends,
 and on an answer records it and clears the mark; the attempt gives up or collects the result, reads the
 outcome from the track, and settles the reservation by it. All of these steps interleave.
 */
module Settlement {
  import opened Basics
  import opened Track

  /** How far a request has come. Sent requests are those from Open on. */
  datatype Fate = Marked | Cleared | Bailed | Open | Lost | Accepted | Refused

  datatype Req = Req(kind: SentRequest, fate: Fate)

  /** Busy: the last request is in progress. */
  datatype Goroutine = Between | Busy | Finished

  datatype Attempt = Waiting | GaveUp | Collected | Settling(out: Outcome)

  /** `known` is the list of requests when the outcome was read; `unclear`, whether its last was answered but still marked. */
  datatype Sys = Sys(track: Track, reqs: seq<Req>, goroutine: Goroutine, attempt: Attempt, known: seq<Req>, unclear: bool)

  datatype Action =
    | Mark(post: bool, url: string)
    | Check
    | Send
    | Fail                                            // the transport returns an error: nobody knows what the CA did
    | Accept(orderURL: string, finalizeURL: string)   // the CA's success is read and recorded
    | Refuse                                          // any other answer is read
    | Answer
    | Finish
    | GiveUp
    | Collect
    | ReadOutcome
    | Abandon

  const INIT := Sys(FRESH, [], Between, Waiting, [], false)

  function Current(s: Sys): Fate
    requires s.reqs != []
  {
    s.reqs[|s.reqs| - 1].fate
  }

  function WithFate(s: Sys, f: Fate): seq<Req>
    requires s.reqs != []
  {
    s.reqs[|s.reqs| - 1 := Req(s.reqs[|s.reqs| - 1].kind, f)]
  }

  predicate BusyAt(s: Sys, f: Fate) {
    s.goroutine.Busy? && s.reqs != [] && Current(s) == f
  }

  predicate Enabled(s: Sys, a: Action) {
    match a
    case Mark(_, _) => s.goroutine.Between?
    case Check => BusyAt(s, Marked)
    case Send => BusyAt(s, Cleared)
    case Fail => BusyAt(s, Open)
    case Accept(_, finalizeURL) => BusyAt(s, Open) && finalizeURL != ""
    case Refuse => BusyAt(s, Open)
    case Answer => BusyAt(s, Accepted) || BusyAt(s, Refused)
    case Finish => s.goroutine.Between?
    case GiveUp => s.attempt.Waiting?
    case Collect => s.attempt.Waiting? && s.goroutine.Finished?
    case ReadOutcome => s.attempt.GaveUp? || s.attempt.Collected?
    case Abandon => s.attempt.Settling?
  }

  function Step(s: Sys, a: Action): Sys
    requires Enabled(s, a)
  {
    match a
    case Mark(post, url) =>
      var (kind, t) := MarkSent(s.track, post, url);
      s.(track := t, reqs := s.reqs + [Req(kind, Marked)], goroutine := Busy)
    case Check =>
      if s.track.done then s.(track := MarkAnswered(s.track, s.reqs[|s.reqs| - 1].kind), reqs := WithFate(s, Bailed), goroutine := Between)
      else s.(reqs := WithFate(s, Cleared))
    case Send => s.(reqs := WithFate(s, Open))
    case Fail => s.(reqs := WithFate(s, Lost), goroutine := Between)
    case Accept(orderURL, finalizeURL) =>
      var t := match s.reqs[|s.reqs| - 1].kind
        case SentOrder => SetOrder(s.track, orderURL, finalizeURL)
        case SentFinalize => s.track.(finalizedAt := Some(0))
        case SentOther => s.track;
      s.(track := t, reqs := WithFate(s, Accepted))
    case Refuse => s.(reqs := WithFate(s, Refused))
    case Answer => s.(track := MarkAnswered(s.track, s.reqs[|s.reqs| - 1].kind), goroutine := Between)
    case Finish => s.(goroutine := Finished)
    case GiveUp => s.(track := s.track.(done := true), attempt := GaveUp)
    case Collect => s.(attempt := Collected)
    case ReadOutcome => s.(attempt := Settling(OutcomeOf(s.track)), known := s.reqs, unclear := Clearing(s))
    case Abandon => s.(track := s.track.(done := true))
  }

  predicate Legal(s: Sys, run: seq<Action>)
    decreases |run|
  {
    run == [] || (Enabled(s, run[0]) && Legal(Step(s, run[0]), run[1..]))
  }

  function Exec(s: Sys, run: seq<Action>): Sys
    requires Legal(s, run)
    decreases |run|
  {
    if run == [] then s else Exec(Step(s, run[0]), run[1..])
  }

  // ----- reading the list of requests -----

  /** Fate of the latest request of a kind; Refused when there was none. */
  function Latest(reqs: seq<Req>, kind: SentRequest): Fate {
    if reqs == [] then Refused
    else if reqs[|reqs| - 1].kind == kind then reqs[|reqs| - 1].fate
    else Latest(reqs[..|reqs| - 1], kind)
  }

  predicate Any(reqs: seq<Req>, kind: SentRequest, fate: Fate) {
    exists i :: 0 <= i < |reqs| && reqs[i].kind == kind && reqs[i].fate == fate
  }

  /** A request whose success the CA may be counting: on its way, unanswered, or answered with success. */
  predicate MayCount(r: Req) {
    r.fate == Open || r.fate == Lost || r.fate == Accepted
  }

  predicate InProgress(f: Fate) {
    f == Marked || f == Cleared || f == Open || f == Lost
  }

  /**
   What a list of requests shows for a kind: a recorded success, or a latest request of the kind that
   has no answer, or whose answer is still being cleared.
   */
  predicate Shows(reqs: seq<Req>, unclear: bool, kind: SentRequest) {
    || Any(reqs, kind, Accepted)
    || InProgress(Latest(reqs, kind))
    || (unclear && reqs != [] && reqs[|reqs| - 1].kind == kind)
  }

  lemma LatestAfter(reqs: seq<Req>, r: Req, kind: SentRequest)
    requires reqs != [] && reqs[|reqs| - 1].kind == r.kind
    ensures Latest(reqs[|reqs| - 1 := r], kind) == if kind == r.kind then r.fate else Latest(reqs, kind)
  {
    assert reqs[|reqs| - 1 := r][..|reqs| - 1] == reqs[..|reqs| - 1];
  }

  lemma LatestAppend(reqs: seq<Req>, r: Req, kind: SentRequest)
    ensures Latest(reqs + [r], kind) == if kind == r.kind then r.fate else Latest(reqs, kind)
  {
    assert (reqs + [r])[..|reqs|] == reqs;
  }

  lemma {:induction false} LatestAccepted(reqs: seq<Req>, kind: SentRequest)
    ensures Latest(reqs, kind) == Accepted ==> Any(reqs, kind, Accepted)
  {
    if Latest(reqs, kind) == Accepted && reqs[|reqs| - 1].kind != kind {
      LatestAccepted(reqs[..|reqs| - 1], kind);
      var i :| 0 <= i < |reqs| - 1 && reqs[..|reqs| - 1][i].kind == kind && reqs[..|reqs| - 1][i].fate == Accepted;
      assert reqs[i].fate == Accepted;
    }
  }

  // ----- what the track knows -----

  predicate Flag(t: Track, kind: SentRequest) {
    (kind.SentOrder? && t.orderSent) || (kind.SentFinalize? && t.finalSent)
  }

  predicate Recorded(t: Track, kind: SentRequest) {
    (kind.SentOrder? && t.created) || (kind.SentFinalize? && t.finalizedAt.Some?)
  }

  /** The last request has an answer that is read but not cleared from the track yet. */
  predicate Clearing(s: Sys) {
    BusyAt(s, Accepted) || BusyAt(s, Refused)
  }

  /** The two flags of a kind say no more and no less than the list of requests does. */
  ghost predicate Tells(s: Sys, kind: SentRequest) {
    && (Recorded(s.track, kind) <==> Any(s.reqs, kind, Accepted))
    && (Flag(s.track, kind) <==> InProgress(Latest(s.reqs, kind)) || (Clearing(s) && s.reqs[|s.reqs| - 1].kind == kind))
  }

  ghost predicate Orderly(s: Sys) {
    && (s.goroutine.Busy? ==> s.reqs != [] && Current(s) != Bailed && Current(s) != Lost)
    && (forall i :: 0 <= i < |s.reqs| && (i < |s.reqs| - 1 || !s.goroutine.Busy?) ==>
          s.reqs[i].fate == Bailed || s.reqs[i].fate == Lost || s.reqs[i].fate == Accepted || s.reqs[i].fate == Refused)
    && (s.attempt.GaveUp? ==> s.track.done)
    && (s.attempt.Collected? ==> s.goroutine.Finished?)
    && (s.attempt.Settling? ==> s.track.done || s.goroutine.Finished?)
  }

  lemma StepIsOrderly(s: Sys, a: Action)
    requires Orderly(s) && Enabled(s, a)
    ensures Orderly(Step(s, a))
  {
  }

  lemma AnyAfter(reqs: seq<Req>, r: Req, kind: SentRequest, fate: Fate)
    requires reqs != [] && reqs[|reqs| - 1].kind == r.kind && reqs[|reqs| - 1].fate != fate
    ensures Any(reqs[|reqs| - 1 := r], kind, fate) <==> Any(reqs, kind, fate) || (r.kind == kind && r.fate == fate)
  {
    var after := reqs[|reqs| - 1 := r];
    if Any(reqs, kind, fate) {
      var i :| 0 <= i < |reqs| && reqs[i].kind == kind && reqs[i].fate == fate;
      assert after[i] == reqs[i];
    }
    if r.kind == kind && r.fate == fate {
      assert after[|reqs| - 1] == r;
    }
    if Any(after, kind, fate) && !(r.kind == kind && r.fate == fate) {
      var i :| 0 <= i < |after| && after[i].kind == kind && after[i].fate == fate;
      assert reqs[i] == after[i];
    }
  }

  lemma AnyAppend(reqs: seq<Req>, r: Req, kind: SentRequest, fate: Fate)
    ensures Any(reqs + [r], kind, fate) <==> Any(reqs, kind, fate) || (r.kind == kind && r.fate == fate)
  {
    var after := reqs + [r];
    if Any(reqs, kind, fate) {
      var i :| 0 <= i < |reqs| && reqs[i].kind == kind && reqs[i].fate == fate;
      assert after[i] == reqs[i];
    }
    if r.kind == kind && r.fate == fate {
      assert after[|reqs|] == r;
    }
    if Any(after, kind, fate) && !(r.kind == kind && r.fate == fate) {
      var i :| 0 <= i < |after| && after[i].kind == kind && after[i].fate == fate;
      assert reqs[i] == after[i];
    }
  }

  lemma MarkTells(s: Sys, a: Action, kind: SentRequest)
    requires kind.SentOrder? || kind.SentFinalize?
    requires Orderly(s) && Tells(s, kind) && Enabled(s, a) && a.Mark?
    ensures Tells(Step(s, a), kind)
  {
    hide Latest, Any;
    var r := Step(s, a).reqs[|s.reqs|];
    LatestAppend(s.reqs, r, kind);
    AnyAppend(s.reqs, r, kind, Accepted);
  }

  /** A step that gives the latest request its next fate. */
  lemma FateTells(s: Sys, a: Action, kind: SentRequest)
    requires kind.SentOrder? || kind.SentFinalize?
    requires Orderly(s) && Tells(s, kind) && Enabled(s, a) && (a.Check? || a.Send? || a.Fail? || a.Accept? || a.Refuse?)
    ensures Tells(Step(s, a), kind)
  {
    hide Latest, Any;
    LatestIsLast(s, kind);
    Retell(s, Step(s, a), kind);
  }

  lemma StepTells(s: Sys, a: Action, kind: SentRequest)
    requires kind.SentOrder? || kind.SentFinalize?
    requires Orderly(s) && Tells(s, kind) && Enabled(s, a)
    ensures Tells(Step(s, a), kind)
  {
    hide Any;
    match a
    case Mark(_, _) => MarkTells(s, a, kind);
    case Check => FateTells(s, a, kind);
    case Send => FateTells(s, a, kind);
    case Fail => FateTells(s, a, kind);
    case Accept(_, _) => FateTells(s, a, kind);
    case Refuse => FateTells(s, a, kind);
    case Answer => LatestIsLast(s, kind);
    case _ =>
  }

  lemma Retell(s: Sys, s': Sys, kind: SentRequest)
    requires s.reqs != [] && |s'.reqs| == |s.reqs| && Current(s) != Accepted && s'.reqs == WithFate(s, Current(s'))
    ensures Latest(s'.reqs, kind) == if s.reqs[|s.reqs| - 1].kind == kind then Current(s') else Latest(s.reqs, kind)
    ensures Any(s'.reqs, kind, Accepted) <==> Any(s.reqs, kind, Accepted) || (s.reqs[|s.reqs| - 1].kind == kind && Current(s') == Accepted)
  {
    LatestAfter(s.reqs, s'.reqs[|s.reqs| - 1], kind);
    AnyAfter(s.reqs, s'.reqs[|s.reqs| - 1], kind, Accepted);
  }

  lemma LatestIsLast(s: Sys, kind: SentRequest)
    requires s.reqs != []
    ensures s.reqs[|s.reqs| - 1].kind == kind ==> Latest(s.reqs, kind) == Current(s)
  {
  }

  // ----- after the outcome is read -----

  function OutcomeFor(out: Outcome, kind: SentRequest): bool {
    if kind.SentOrder? then out.created else out.finalized
  }

  /**
   The outcome is exactly what the requests known at that moment show; and if it shows nothing for a
   kind, no request of that kind counts later that did not already then.
   */
  ghost predicate Settled(s: Sys, kind: SentRequest) {
    s.attempt.Settling? ==>
      && (OutcomeFor(s.attempt.out, kind) <==> Shows(s.known, s.unclear, kind))
      && |s.known| <= |s.reqs|
      && (forall i :: 0 <= i < |s.known| - 1 ==> s.known[i].fate != Open)
      && (forall i :: 0 <= i < |s.known| && s.known[i].fate == Lost ==> s.reqs[i] == s.known[i])
      && (!OutcomeFor(s.attempt.out, kind) ==>
            && (forall i :: 0 <= i < |s.reqs| && s.reqs[i].kind == kind && MayCount(s.reqs[i]) ==> i < |s.known| && s.known[i] == s.reqs[i])
            && !(s.goroutine.Busy? && s.reqs != [] && s.reqs[|s.reqs| - 1].kind == kind && (Current(s) == Cleared || Current(s) == Open)))
      && (s.goroutine.Busy? && |s.known| == |s.reqs| > 0 ==> s.known[|s.reqs| - 1].fate != Lost)
  }

  lemma OutcomeShows(s: Sys, kind: SentRequest)
    requires kind.SentOrder? || kind.SentFinalize?
    requires Tells(s, kind)
    ensures OutcomeFor(OutcomeOf(s.track), kind) <==> Shows(s.reqs, Clearing(s), kind)
  {
  }

  lemma ReadSettles(s: Sys, kind: SentRequest)
    requires kind.SentOrder? || kind.SentFinalize?
    requires Orderly(s) && Tells(s, kind) && Enabled(s, ReadOutcome)
    ensures Settled(Step(s, ReadOutcome), kind)
  {
    OutcomeShows(s, kind);
    forall i | 0 <= i < |s.reqs| && s.reqs[i].kind == kind && MayCount(s.reqs[i]) && s.reqs[i].fate == Accepted
      ensures Any(s.reqs, kind, Accepted)
    {
    }
    if s.goroutine.Busy? && s.reqs[|s.reqs| - 1].kind == kind {
      LatestIsLast(s, kind);
    }
  }

  lemma LaterSettles(s: Sys, a: Action, kind: SentRequest)
    requires kind.SentOrder? || kind.SentFinalize?
    requires Orderly(s) && Settled(s, kind) && Enabled(s, a) && !a.ReadOutcome?
    ensures Settled(Step(s, a), kind)
  {
    hide Shows;
  }

  lemma StepSettles(s: Sys, a: Action, kind: SentRequest)
    requires kind.SentOrder? || kind.SentFinalize?
    requires Orderly(s) && Tells(s, kind) && Settled(s, kind) && Enabled(s, a)
    ensures Settled(Step(s, a), kind)
  {
    hide Settled, Orderly, Tells, Step;
    if a.ReadOutcome? {
      ReadSettles(s, kind);
    } else {
      LaterSettles(s, a, kind);
    }
  }

  ghost predicate Inv(s: Sys) {
    && Orderly(s)
    && Tells(s, SentOrder) && Tells(s, SentFinalize)
    && Settled(s, SentOrder) && Settled(s, SentFinalize)
  }

  lemma {:induction false} RunKeepsInv(s: Sys, run: seq<Action>)
    requires Legal(s, run) && Inv(s)
    ensures Inv(Exec(s, run))
    decreases |run|
  {
    if run != [] {
      StepIsOrderly(s, run[0]);
      StepTells(s, run[0], SentOrder);
      StepTells(s, run[0], SentFinalize);
      StepSettles(s, run[0], SentOrder);
      StepSettles(s, run[0], SentFinalize);
      RunKeepsInv(Step(s, run[0]), run[1..]);
    }
  }

  // ----- the theorems -----

  /** A request of the kind that the CA may be counting was not seen by the outcome. */
  predicate Escapes(s: Sys, kind: SentRequest)
    requires s.attempt.Settling?
  {
    !OutcomeFor(s.attempt.out, kind) && exists i :: 0 <= i < |s.reqs| && s.reqs[i].kind == kind && MayCount(s.reqs[i])
  }

  /** A request went unanswered, none succeeded, and the latest was answered or given up before it was sent. */
  predicate Overwritten(reqs: seq<Req>, unclear: bool, kind: SentRequest) {
    && Any(reqs, kind, Lost) && !Any(reqs, kind, Accepted)
    && (Latest(reqs, kind) == Bailed || Latest(reqs, kind) == Refused)
    && !(unclear && reqs[|reqs| - 1].kind == kind)
  }

  lemma EscapeIsOverwritten(s: Sys, kind: SentRequest)
    requires s.attempt.Settling? && Settled(s, kind) && Escapes(s, kind)
    ensures Overwritten(s.known, s.unclear, kind)
  {
    var i :| 0 <= i < |s.reqs| && s.reqs[i].kind == kind && MayCount(s.reqs[i]);
    assert s.known[i] == s.reqs[i];
    LatestAccepted(s.known, kind);
    assert s.known[i].fate == Accepted ==> Any(s.known, kind, Accepted);
  }

  lemma OverwrittenEscapes(s: Sys, kind: SentRequest)
    requires s.attempt.Settling? && Settled(s, kind) && Overwritten(s.known, s.unclear, kind)
    ensures Escapes(s, kind)
  {
    var i :| 0 <= i < |s.known| && s.known[i].kind == kind && s.known[i].fate == Lost;
    assert s.reqs[i] == s.known[i];
  }

  /**
   In every interleaving, at every moment after the outcome is read: an order or finalize request that
   was accepted or never answered is missed if and only if, among the requests begun by then, one of
   its kind went unanswered, none succeeded, and a later one of its kind was begun and ended with an
   answer or without being sent.
   */
  lemma EscapesExactly(run: seq<Action>, kind: SentRequest)
    requires kind.SentOrder? || kind.SentFinalize?
    requires Legal(INIT, run) && Exec(INIT, run).attempt.Settling?
    ensures var s := Exec(INIT, run); Escapes(s, kind) <==> Overwritten(s.known, s.unclear, kind)
  {
    RunKeepsInv(INIT, run);
    var s := Exec(INIT, run);
    if Escapes(s, kind) {
      EscapeIsOverwritten(s, kind);
    }
    if Overwritten(s.known, s.unclear, kind) {
      OverwrittenEscapes(s, kind);
    }
  }

  lemma {:induction false} LatestAfterLost(reqs: seq<Req>, kind: SentRequest, i: nat)
    requires i < |reqs| && reqs[i].kind == kind && reqs[i].fate == Lost
    requires forall j :: i < j < |reqs| ==> reqs[j].kind != kind
    ensures Latest(reqs, kind) == Lost
  {
    if i < |reqs| - 1 {
      LatestAfterLost(reqs[..|reqs| - 1], kind, i);
    }
  }

  /** So no order escapes settlement, provided none is begun after one of its kind went unanswered. */
  lemma NoOrderEscapes(run: seq<Action>, kind: SentRequest)
    requires kind.SentOrder? || kind.SentFinalize?
    requires Legal(INIT, run) && Exec(INIT, run).attempt.Settling?
    requires var reqs := Exec(INIT, run).known;
             forall i, j :: 0 <= i < j < |reqs| && reqs[i].kind == kind && reqs[i].fate == Lost ==> reqs[j].kind != kind
    ensures !Escapes(Exec(INIT, run), kind)
  {
    EscapesExactly(run, kind);
    var reqs := Exec(INIT, run).known;
    if Any(reqs, kind, Lost) {
      var i :| 0 <= i < |reqs| && reqs[i].kind == kind && reqs[i].fate == Lost;
      LatestAfterLost(reqs, kind, i);
    }
  }

  lemma {:induction false} LatestOfNone(reqs: seq<Req>, kind: SentRequest)
    requires forall i :: 0 <= i < |reqs| ==> reqs[i].kind != kind
    ensures Latest(reqs, kind) == Refused && forall unclear :: !Shows(reqs, unclear, kind)
  {
    if reqs != [] {
      LatestOfNone(reqs[..|reqs| - 1], kind);
    }
  }

  /** In every run the outcome is what the requests begun by then show, and nothing of a kind of which none was begun. */
  lemma OutcomeIsShown(run: seq<Action>, kind: SentRequest)
    requires kind.SentOrder? || kind.SentFinalize?
    requires Legal(INIT, run) && Exec(INIT, run).attempt.Settling?
    ensures var s := Exec(INIT, run);
            && (OutcomeFor(s.attempt.out, kind) <==> Shows(s.known, s.unclear, kind))
            && ((forall i :: 0 <= i < |s.known| ==> s.known[i].kind != kind) ==> !OutcomeFor(s.attempt.out, kind))
  {
    RunKeepsInv(INIT, run);
    var s := Exec(INIT, run);
    if forall i :: 0 <= i < |s.known| ==> s.known[i].kind != kind {
      LatestOfNone(s.known, kind);
    }
  }

  ghost predicate DoneWhenGivenUp(s: Sys) {
    !s.attempt.Settling? ==> (s.track.done <==> s.attempt.GaveUp?)
  }

  lemma {:induction false} RunKeepsDone(s: Sys, run: seq<Action>)
    requires Legal(s, run) && DoneWhenGivenUp(s)
    ensures DoneWhenGivenUp(Exec(s, run))
    decreases |run|
  {
    if run != [] {
      RunKeepsDone(Step(s, run[0]), run[1..]);
    }
  }

  /** In every run the outcome says that the order was abandoned exactly when the attempt gave up on it. */
  lemma OutcomeTellsAbandonment(run: seq<Action>)
    requires Legal(INIT, run) && Enabled(Exec(INIT, run), ReadOutcome)
    ensures Step(Exec(INIT, run), ReadOutcome).attempt.out.abandoned <==> Exec(INIT, run).attempt.GaveUp?
  {
    RunKeepsDone(INIT, run);
  }

  // ----- which request is which -----

  /** An order was accepted with the finalize address f, and no other order request is in progress. */
  ghost predicate HasOrder(s: Sys, f: string) {
    && f != "" && s.track.created && s.track.finalizeURL == f
    && (s.goroutine.Busy? ==> s.reqs != [] && (s.reqs[|s.reqs| - 1].kind.SentOrder? ==> Current(s) == Accepted))
  }

  lemma StepKeepsOrder(s: Sys, a: Action, f: string)
    requires Enabled(s, a) && HasOrder(s, f)
    ensures HasOrder(Step(s, a), f)
  {
  }

  lemma {:induction false} RunKeepsOrder(s: Sys, run: seq<Action>, f: string)
    requires Legal(s, run) && HasOrder(s, f)
    ensures HasOrder(Exec(s, run), f)
    decreases |run|
  {
    if run != [] {
      StepKeepsOrder(s, run[0], f);
      RunKeepsOrder(Step(s, run[0]), run[1..], f);
    }
  }

  /** From the acceptance of an order on, a request is told as its finalize request if and only if it goes to the order's finalize address, and none as an order. */
  lemma FinalizeIsRecognised(run: seq<Action>, a: Action, later: seq<Action>, post: bool, url: string)
    requires Legal(INIT, run) && a.Accept? && Enabled(Exec(INIT, run), a)
    requires var s := Exec(INIT, run); s.reqs[|s.reqs| - 1].kind.SentOrder?
    requires Legal(Step(Exec(INIT, run), a), later) && Enabled(Exec(Step(Exec(INIT, run), a), later), Mark(post, url))
    ensures var t := Step(Exec(Step(Exec(INIT, run), a), later), Mark(post, url));
            t.reqs[|t.reqs| - 1].kind == if url == a.finalizeURL then SentFinalize else SentOther
  {
    RunKeepsOrder(Step(Exec(INIT, run), a), later, a.finalizeURL);
  }

  /** The finalize address is known exactly when an order was accepted. */
  ghost predicate Unordered(s: Sys) {
    !s.track.created ==> s.track.finalizeURL == ""
  }

  lemma {:induction false} RunKeepsUnordered(s: Sys, run: seq<Action>)
    requires Legal(s, run) && Unordered(s)
    ensures Unordered(Exec(s, run))
    decreases |run|
  {
    if run != [] {
      RunKeepsUnordered(Step(s, run[0]), run[1..]);
    }
  }

  /** Until an order request is accepted, every POST is told as one, and nothing as a finalize request. */
  lemma OrderIsRecognised(run: seq<Action>, post: bool, url: string)
    requires Legal(INIT, run) && Enabled(Exec(INIT, run), Mark(post, url)) && !Any(Exec(INIT, run).reqs, SentOrder, Accepted)
    ensures var t := Step(Exec(INIT, run), Mark(post, url));
            t.reqs[|t.reqs| - 1].kind == if post then SentOrder else SentOther
  {
    RunKeepsInv(INIT, run);
    RunKeepsUnordered(INIT, run);
  }

  lemma {:induction false} OneMore(s: Sys, run: seq<Action>, a: Action)
    requires Legal(s, run) && Enabled(Exec(s, run), a)
    ensures Legal(s, run + [a]) && Exec(s, run + [a]) == Step(Exec(s, run), a)
    decreases |run|
  {
    if run == [] {
      assert (run + [a])[1..] == [];
    } else {
      OneMore(Step(s, run[0]), run[1..], a);
      assert (run + [a])[1..] == run[1..] + [a];
    }
  }

  const LOST_ORDER := [Mark(true, "new-order"), Check, Send, Fail]

  lemma LostOrder()
    ensures Legal(INIT, LOST_ORDER)
    ensures Exec(INIT, LOST_ORDER) == INIT.(track := FRESH.(orderSent := true), reqs := [Req(SentOrder, Lost)])
  {
    OneMore(INIT, [], Mark(true, "new-order"));
    OneMore(INIT, [Mark(true, "new-order")], Check);
    OneMore(INIT, [Mark(true, "new-order"), Check], Send);
    OneMore(INIT, [Mark(true, "new-order"), Check, Send], Fail);
  }

  /**
   It is not enough that no further request is sent: one that is begun just before the attempt gives
   up, and is therefore not sent, clears the mark the unanswered one left.
   */
  lemma UnsentRetryHidesUnansweredOrder()
    ensures var run := LOST_ORDER + [Mark(true, "new-order")] + [GiveUp] + [Check] + [ReadOutcome];
            && Legal(INIT, run) && Exec(INIT, run).attempt.Settling?
            && Exec(INIT, run).reqs == [Req(SentOrder, Lost), Req(SentOrder, Bailed)]
            && Escapes(Exec(INIT, run), SentOrder)
  {
    LostOrder();
    OneMore(INIT, LOST_ORDER, Mark(true, "new-order"));
    OneMore(INIT, LOST_ORDER + [Mark(true, "new-order")], GiveUp);
    OneMore(INIT, LOST_ORDER + [Mark(true, "new-order")] + [GiveUp], Check);
    OneMore(INIT, LOST_ORDER + [Mark(true, "new-order")] + [GiveUp] + [Check], ReadOutcome);
    var s := Exec(INIT, LOST_ORDER + [Mark(true, "new-order")] + [GiveUp] + [Check] + [ReadOutcome]);
    assert s.reqs[0] == Req(SentOrder, Lost);
  }
}
