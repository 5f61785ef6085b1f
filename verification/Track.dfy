/**
 The order track of internal/acme/track.go: what one certificate order and the attempt that started it
 share. Every method holds the track's mutex, so each is one atomic step; the functions say what the
 step does, and the class holds the fields that settling drains in place.
 */
module Track {
  import opened Basics

  datatype Track = Track(
    orderURL: string, finalizeURL: string, finalizedAt: Option<int>,
    created: bool, orderSent: bool, finalSent: bool,
    prepaidKey: string, prepaid: nat, prepaidMark: string,
    done: bool)

  datatype SentRequest = SentOther | SentOrder | SentFinalize

  datatype Outcome = Outcome(created: bool, finalized: bool, abandoned: bool)

  const FRESH := Track("", "", None, false, false, false, "", 0, "", false)

  function SetPrepaid(t: Track, key: string, n: nat, mark: string): Track {
    t.(prepaidKey := key, prepaid := n, prepaidMark := mark)
  }

  /** Units prepaid before the account's latest 429 mark, or under an unknown mark, are given up. */
  function DropPrepaid(t: Track, mark: string, known: bool): (nat, Track) {
    if known && (mark == "" || mark == t.prepaidMark) then (0, t) else (t.prepaid, t.(prepaid := 0))
  }

  function UsePrepaid(t: Track): (bool, Track) {
    if t.prepaid == 0 then (false, t) else (true, t.(prepaid := t.prepaid - 1))
  }

  function ReturnPrepaid(t: Track): Track {
    t.(prepaid := t.prepaid + 1)
  }

  function DrainPrepaid(t: Track): (nat, Track) {
    (t.prepaid, t.(prepaid := 0))
  }

  function SetOrder(t: Track, orderURL: string, finalizeURL: string): Track {
    t.(orderURL := orderURL, finalizeURL := finalizeURL, created := true)
  }

  /** Which kind of request a POST to `url` is, as the track can tell. */
  function Kind(t: Track, post: bool, url: string): SentRequest {
    if t.finalizeURL != "" && url == t.finalizeURL then SentFinalize
    else if !t.created && post then SentOrder
    else SentOther
  }

  function MarkSent(t: Track, post: bool, url: string): (SentRequest, Track) {
    match Kind(t, post, url)
    case SentFinalize => (SentFinalize, t.(finalSent := true))
    case SentOrder => (SentOrder, t.(orderSent := true))
    case SentOther => (SentOther, t)
  }

  function MarkAnswered(t: Track, s: SentRequest): Track {
    match s
    case SentOrder => t.(orderSent := false)
    case SentFinalize => t.(finalSent := false)
    case SentOther => t
  }

  function OutcomeOf(t: Track): Outcome {
    Outcome(t.created || t.orderSent, t.finalizedAt.Some? || t.finalSent, t.done)
  }

  // ----- the prepaid units of a track over its life -----

  /** The calls that touch the prepaid units, in any order and from any goroutine. */
  datatype Call = SetCall(key: string, n: nat, mark: string) | DropCall(mark: string, known: bool) | UseCall | ReturnCall | DrainCall

  function Called(t: Track, c: Call): Track {
    match c
    case SetCall(key, n, mark) => SetPrepaid(t, key, n, mark)
    case DropCall(mark, known) => DropPrepaid(t, mark, known).1
    case UseCall => UsePrepaid(t).1
    case ReturnCall => ReturnPrepaid(t)
    case DrainCall => DrainPrepaid(t).1
  }

  /** What the callers were told so far: units set, overwritten by a later set, reported dropped, drained, and uses granted and undone. */
  datatype Tally = Tally(given: nat, replaced: nat, dropped: nat, drained: nat, used: nat, returned: nat)

  function Tallied(n: Tally, t: Track, c: Call): Tally {
    match c
    case SetCall(_, m, _) => n.(given := n.given + m, replaced := n.replaced + t.prepaid)
    case DropCall(mark, known) => n.(dropped := n.dropped + DropPrepaid(t, mark, known).0)
    case UseCall => if UsePrepaid(t).0 then n.(used := n.used + 1) else n
    case ReturnCall => n.(returned := n.returned + 1)
    case DrainCall => n.(drained := n.drained + DrainPrepaid(t).0)
  }

  /** A unit is returned only by a request that used one and has not returned it. */
  predicate MayCall(n: Tally, c: Call) {
    c.ReturnCall? ==> n.returned < n.used
  }

  predicate Allowed(t: Track, n: Tally, calls: seq<Call>)
    decreases |calls|
  {
    calls == [] || (MayCall(n, calls[0]) && Allowed(Called(t, calls[0]), Tallied(n, t, calls[0]), calls[1..]))
  }

  function CalledAll(t: Track, n: Tally, calls: seq<Call>): (Track, Tally)
    decreases |calls|
  {
    if calls == [] then (t, n) else CalledAll(Called(t, calls[0]), Tallied(n, t, calls[0]), calls[1..])
  }

  /** What was set is where the tally says, or still on the track. */
  predicate Balanced(t: Track, n: Tally) {
    n.given + n.returned == t.prepaid + n.used + n.dropped + n.drained + n.replaced && n.returned <= n.used
  }

  lemma CallBalances(t: Track, n: Tally, c: Call)
    requires Balanced(t, n) && MayCall(n, c)
    ensures Balanced(Called(t, c), Tallied(n, t, c))
  {
  }

  lemma {:induction false} UnitsAreConservedFrom(t: Track, n: Tally, calls: seq<Call>)
    requires Balanced(t, n) && Allowed(t, n, calls)
    ensures var (t', n') := CalledAll(t, n, calls); Balanced(t', n')
    decreases |calls|
  {
    hide Balanced, Called, Tallied, MayCall;
    if calls != [] {
      CallBalances(t, n, calls[0]);
      UnitsAreConservedFrom(Called(t, calls[0]), Tallied(n, t, calls[0]), calls[1..]);
    }
  }

  /**
   Over every sequence of calls that returns only what was used, no unit is lost, made up or handed out twice: what was
   set is left, in use, reported dropped, drained, or was overwritten, and none of these is more than was set.
   */
  lemma UnitsAreConserved(calls: seq<Call>)
    requires Allowed(FRESH, Tally(0, 0, 0, 0, 0, 0), calls)
    ensures var (t, n) := CalledAll(FRESH, Tally(0, 0, 0, 0, 0, 0), calls);
            n.returned <= n.used && n.given == t.prepaid + (n.used - n.returned) + n.dropped + n.drained + n.replaced
  {
    UnitsAreConservedFrom(FRESH, Tally(0, 0, 0, 0, 0, 0), calls);
  }

  class OrderTrack {
    var orderURL: string
    var finalizeURL: string
    var finalizedAt: Option<int>
    var created: bool
    var orderSent: bool
    var finalSent: bool
    var prepaidKey: string
    var prepaid: nat
    var prepaidMark: string
    var done: bool

    function View(): Track
      reads this
    {
      Track(orderURL, finalizeURL, finalizedAt, created, orderSent, finalSent, prepaidKey, prepaid, prepaidMark, done)
    }

    constructor ()
      ensures View() == FRESH
    {
      orderURL, finalizeURL, finalizedAt := "", "", None;
      created, orderSent, finalSent, done := false, false, false, false;
      prepaidKey, prepaid, prepaidMark := "", 0, "";
    }

    method DrainPrepaidUnits() returns (n: nat, mark: string)
      modifies this
      ensures (n, View()) == DrainPrepaid(old(View())) && mark == old(prepaidMark)
    {
      n := prepaid;
      prepaid := 0;
      mark := prepaidMark;
    }
  }
}
