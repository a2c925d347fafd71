/**
 Delivery-receipt ingestion: the message state machine a receipt may drive (`next_state`), the
 read / write receipt / compare-and-swap protocol of `ingest_one` racing other receipts, the worker
 and operators, and the loop of `ingest`.

 The transition table is the one `0002_bootstrap` installs; its trigger refuses any other edge with
 SM001. Every write of a message bumps its version.
 */
module MessageStates {
  import opened Options

  datatype MessageState =
    | Accepted | Queued | Routed | Submitted | Delivered | Uncertain | Undelivered
    | Failed | Expired | Rejected | Cancelled

  datatype DeliveryOutcome =
    | ODelivered | OUncertain | OFailed | OExpired | ORejected | OInFlight | OUnknown

  /** The rows of `message_state_transitions`. */
  predicate Legal(from: MessageState, to: MessageState)
  {
    match from
    case Accepted => to in {Queued, Rejected, Cancelled, Expired}
    case Queued => to in {Routed, Cancelled, Expired, Failed}
    case Routed => to in {Submitted, Queued, Failed, Expired, Cancelled, Uncertain}
    case Submitted => to in {Delivered, Uncertain, Undelivered, Failed, Expired}
    case Uncertain => to in {Delivered, Failed, Expired}
    case Undelivered => to in {Queued, Failed, Expired}
    case _ => false
  }

  /** No edge leaves a terminal state. */
  predicate Terminal(s: MessageState)
  {
    s in {Delivered, Failed, Expired, Rejected, Cancelled}
  }

  predicate PreSubmit(s: MessageState)
  {
    s in {Accepted, Queued, Routed}
  }

  function NextState(current: MessageState, outcome: DeliveryOutcome): Option<MessageState>
  {
    match current
    case Submitted => (
      match outcome
      case ODelivered => Some(Delivered)
      case OUncertain => Some(Uncertain)
      case OExpired => Some(Expired)
      case ORejected => Some(Failed)
      case OFailed => Some(Undelivered)
      case OInFlight => None
      case OUnknown => None)
    case Uncertain => (
      match outcome
      case ODelivered => Some(Delivered)
      case OExpired => Some(Expired)
      case ORejected => Some(Failed)
      case OFailed => Some(Failed)
      case _ => None)
    case Undelivered => (
      match outcome
      case OExpired => Some(Expired)
      case ORejected => Some(Failed)
      case _ => None)
    case _ => None
  }

  /** The edges the documentation lets a receipt drive. */
  predicate ReceiptEdge(from: MessageState, to: MessageState)
  {
    || (from == Submitted && to in {Delivered, Uncertain, Undelivered, Failed, Expired})
    || (from == Uncertain && to in {Delivered, Failed, Expired})
    || (from == Undelivered && to in {Failed, Expired})
  }

  /** `next_state` proposes exactly the documented edges: each one it proposes is documented and legal,
      and each documented one is what some outcome proposes. */
  lemma ReceiptEdgesAreExact(from: MessageState, to: MessageState)
    ensures ReceiptEdge(from, to) <==> exists o :: NextState(from, o) == Some(to)
    ensures ReceiptEdge(from, to) ==> Legal(from, to) && !Terminal(from) && !PreSubmit(from)
  {
    var o := match to
      case Delivered => ODelivered
      case Uncertain => OUncertain
      case Undelivered => OFailed
      case Failed => ORejected
      case _ => OExpired;
    if ReceiptEdge(from, to) { assert NextState(from, o) == Some(to); }
  }

  /** What a verdict may make of a message. */
  predicate Says(o: DeliveryOutcome, to: MessageState)
  {
    match o
    case ODelivered => to == Delivered
    case OUncertain => to == Uncertain
    case OExpired => to == Expired
    case ORejected => to == Failed
    case OFailed => to == Undelivered || to == Failed
    case _ => false
  }

  /** Which verdict leads where: none leads anywhere but where it says; a retryable failure is final exactly
      where the message was uncertain; every verdict moves a submitted message, every one but a repeat an
      uncertain one, and only a final one an undelivered message. */
  lemma VerdictsLead(s: MessageState, o: DeliveryOutcome)
    ensures NextState(s, o).Some? ==> Says(o, NextState(s, o).value)
    ensures o == OFailed && NextState(s, o).Some? ==> (NextState(s, o).value == Failed <==> s == Uncertain)
    ensures s == Submitted ==> (NextState(s, o).Some? <==> Verdict(o))
    ensures s == Uncertain ==> (NextState(s, o).Some? <==> Verdict(o) && o != OUncertain)
    ensures s == Undelivered ==> (NextState(s, o).Some? <==> o == OExpired || o == ORejected)
    ensures s !in {Submitted, Uncertain, Undelivered} ==> NextState(s, o).None?
  {
  }

  // ----- what a list of receipts does to a message nobody else touches -----

  function Deliver(s: MessageState, o: DeliveryOutcome): MessageState
  {
    match NextState(s, o) case Some(t) => t case None => s
  }

  function DeliverAll(s: MessageState, os: seq<DeliveryOutcome>): MessageState
  {
    if os == [] then s else Deliver(DeliverAll(s, os[..|os| - 1]), os[|os| - 1])
  }

  predicate Verdict(o: DeliveryOutcome) { !o.OInFlight? && !o.OUnknown? }

  function Verdicts(os: seq<DeliveryOutcome>): seq<DeliveryOutcome>
  {
    if os == [] then []
    else Verdicts(os[..|os| - 1]) + if Verdict(os[|os| - 1]) then [os[|os| - 1]] else []
  }

  /** Adjacent duplicates taken out. */
  function Collapsed(os: seq<DeliveryOutcome>): seq<DeliveryOutcome>
  {
    if |os| < 2 then os
    else
      var front := Collapsed(os[..|os| - 1]);
      if os[|os| - 1] == os[|os| - 2] then front else front + [os[|os| - 1]]
  }

  lemma DeliverSnoc(s: MessageState, os: seq<DeliveryOutcome>, o: DeliveryOutcome)
    ensures DeliverAll(s, os + [o]) == Deliver(DeliverAll(s, os), o)
  {
  }

  /** Progress reports and unknown statuses change nothing, wherever they come. */
  lemma {:induction false} ProgressIsInert(s: MessageState, os: seq<DeliveryOutcome>)
    ensures DeliverAll(s, Verdicts(os)) == DeliverAll(s, os)
  {
    if os != [] {
      var front, last := os[..|os| - 1], os[|os| - 1];
      ProgressIsInert(s, front);
      if Verdict(last) { DeliverSnoc(s, Verdicts(front), last); }
      else { assert Verdicts(os) == Verdicts(front); }
    }
  }

  /** A provider that repeats itself changes nothing. */
  lemma {:induction false} RepeatsAreInert(s: MessageState, os: seq<DeliveryOutcome>)
    ensures DeliverAll(s, Collapsed(os)) == DeliverAll(s, os)
  {
    if |os| >= 2 {
      var front, last := os[..|os| - 1], os[|os| - 1];
      RepeatsAreInert(s, front);
      if last == os[|os| - 2] {
        assert DeliverAll(s, front) == Deliver(DeliverAll(s, front[..|front| - 1]), last);
      } else {
        DeliverSnoc(s, Collapsed(front), last);
      }
    }
  }

  /** A message ends where it was, or where one of the receipts said. */
  lemma {:induction false} EndsOnlyAsTold(s: MessageState, os: seq<DeliveryOutcome>)
    ensures DeliverAll(s, os) == s || exists i :: 0 <= i < |os| && Says(os[i], DeliverAll(s, os))
  {
    if os != [] {
      var front, last := os[..|os| - 1], os[|os| - 1];
      EndsOnlyAsTold(s, front);
      VerdictsLead(DeliverAll(s, front), last);
      if DeliverAll(s, os) != s {
        if NextState(DeliverAll(s, front), last).Some? {
          assert Says(os[|os| - 1], DeliverAll(s, os));
        } else {
          var i :| 0 <= i < |front| && Says(front[i], DeliverAll(s, front));
          assert Says(os[i], DeliverAll(s, os));
        }
      }
    }
  }

  /** Nothing so far but doubts and progress. */
  predicate Open(os: seq<DeliveryOutcome>)
  {
    forall j :: 0 <= j < |os| ==> os[j] in {OUncertain, OInFlight, OUnknown}
  }

  lemma {:induction false} OpenStays(s: MessageState, os: seq<DeliveryOutcome>)
    requires s == Submitted || s == Uncertain
    ensures DeliverAll(s, os) in {Submitted, Uncertain} <==> Open(os)
  {
    if os != [] {
      OpenStays(s, os[..|os| - 1]);
      VerdictsLead(DeliverAll(s, os[..|os| - 1]), os[|os| - 1]);
    }
  }

  /** A message sent and in doubt at most is delivered exactly when a receipt says so before any other verdict
      than doubt does. */
  lemma {:induction false} DeliveredExactly(s: MessageState, os: seq<DeliveryOutcome>)
    requires s == Submitted || s == Uncertain
    ensures DeliverAll(s, os) == Delivered <==> exists i :: 0 <= i < |os| && os[i] == ODelivered && Open(os[..i])
  {
    if os != [] {
      var front, last := os[..|os| - 1], os[|os| - 1];
      DeliveredExactly(s, front);
      OpenStays(s, front);
      VerdictsLead(DeliverAll(s, front), last);
      assert forall i :: 0 <= i < |front| ==> front[..i] == os[..i] && front[i] == os[i];
      assert os[..|front|] == front;
    }
  }

  /** Strictly decreases with every move a receipt makes. */
  function Rank(s: MessageState): nat
  {
    if s.Submitted? then 2 else if s.Uncertain? || s.Undelivered? then 1 else 0
  }

  function Moves(s: MessageState, os: seq<DeliveryOutcome>): nat
  {
    if os == [] then 0
    else
      var before := DeliverAll(s, os[..|os| - 1]);
      Moves(s, os[..|os| - 1]) + if Deliver(before, os[|os| - 1]) != before then 1 else 0
  }

  /** Without the worker, receipts move a message at most twice. */
  lemma {:induction false} AtMostTwoMoves(s: MessageState, os: seq<DeliveryOutcome>)
    ensures Moves(s, os) + Rank(DeliverAll(s, os)) <= Rank(s) <= 2
  {
    if os != [] { AtMostTwoMoves(s, os[..|os| - 1]); }
  }

  // ----- the retry backoff -----

  const SECOND := 1_000_000
  const BACKOFF: seq<int> := [5 * SECOND, 30 * SECOND, 120 * SECOND, 600 * SECOND, 1800 * SECOND]

  /** Keyed by attempts already made; any count is accepted and the schedule saturates at both ends. */
  function RetryBackoff(attempts: int): (d: int)
    ensures 5 * SECOND <= d <= 1800 * SECOND
  {
    var index := if attempts - 1 > 0 then attempts - 1 else 0;
    BACKOFF[if index < |BACKOFF| - 1 then index else |BACKOFF| - 1]
  }

  /** The schedule: 5 seconds up to the first attempt, then 30 seconds, 2 minutes, 10 minutes, and 30 minutes from
      the fifth on. */
  lemma BackoffSchedule(attempts: int)
    ensures attempts <= 1 ==> RetryBackoff(attempts) == 5_000_000
    ensures RetryBackoff(2) == 30_000_000 && RetryBackoff(3) == 120_000_000 && RetryBackoff(4) == 600_000_000
    ensures attempts >= 5 ==> RetryBackoff(attempts) == 1_800_000_000
  {
  }

  lemma BackoffNeverShrinks(a: int, b: int)
    requires a <= b
    ensures RetryBackoff(a) <= RetryBackoff(b)
  {
  }
}

module DlrRace {
  import opened Options
  import opened MessageStates

  /** `path` is a history variable: every state the row has been in, oldest first. */
  datatype Message = Message(state: MessageState, version: nat, attempts: int, leaseUntil: Option<int>,
                             path: seq<MessageState>)

  /** Where one update's ingestion stands; `found` is the row as it was read. */
  datatype Call =
    | Finding(message: nat, outcome: DeliveryOutcome)
    | Recording(message: nat, outcome: DeliveryOutcome, found: Message)
    | Reckoning(message: nat, outcome: DeliveryOutcome, found: Message)               // reads the clock for the lease
    | Swapping(message: nat, outcome: DeliveryOutcome, found: Message, reckoned: int) // the guarded update, awaited
    | Applied(message: nat, outcome: DeliveryOutcome)
    | NotApplied(message: nat, outcome: DeliveryOutcome)  // nothing to do, or the row had moved on
    | Illegal(message: nat, outcome: DeliveryOutcome)     // SM001
    | Broken(message: nat, outcome: DeliveryOutcome)      // a database error

  datatype Receipt = Receipt(call: nat, message: nat, outcome: DeliveryOutcome)

  /** A write that landed `at`, with the lease reckoned from the clock some time before. */
  datatype Landing = Landing(call: nat, message: nat, from: MessageState, to: MessageState, reckoned: int, at: int,
                             attempts: int, lease: Option<int>)

  datatype State = State(now: int, messages: map<nat, Message>, calls: map<nat, Call>, receipts: seq<Receipt>,
                         landings: seq<Landing>)

  datatype Event =
    | Tick(elapsed: nat)
    | Begin(call: nat, message: nat, outcome: DeliveryOutcome)
    | Run(call: nat)
    | Break(call: nat, landed: bool)
    | Other(message: nat, to: MessageState, attempts: int, leaseUntil: Option<int>)  // worker or operator

  /** A write that carries a state: the trigger's verdict is the caller's to check. */
  function Write(m: Message, to: MessageState, attempts: int, lease: Option<int>): Message
  {
    Message(to, m.version + 1, attempts, lease, if to == m.state then m.path else m.path + [to])
  }

  function Move(s: State, c: nat, call: Call): State
  {
    s.(calls := s.calls[c := call])
  }

  /** A call that has read its row and is not done. */
  predicate Holds(call: Call)
  {
    call.Recording? || call.Reckoning? || call.Swapping?
  }

  function Target(found: Message, o: DeliveryOutcome): Option<MessageState>
  {
    match NextState(found.state, o)
    case Some(t) => if t == found.state then None else Some(t)
    case None => None
  }

  /** A fresh lease only for `undelivered`; otherwise the column is left alone. */
  function LeaseFor(m: Message, to: MessageState, reckoned: int, attempts: int): Option<int>
  {
    if to == Undelivered then Some(reckoned + RetryBackoff(attempts)) else m.leaseUntil
  }

  /** The guarded update: `if_match(found.version)`, then the trigger. */
  function Swap(s: State, c: nat, m: nat, o: DeliveryOutcome, found: Message, reckoned: int, to: MessageState): State
    requires m in s.messages
  {
    var row := s.messages[m];
    if row.version != found.version then Move(s, c, NotApplied(m, o))
    else if !Legal(row.state, to) then Move(s, c, Illegal(m, o))
    else
      var lease := LeaseFor(row, to, reckoned, found.attempts);
      Move(s.(messages := s.messages[m := Write(row, to, row.attempts, lease)],
              landings := s.landings + [Landing(c, m, row.state, to, reckoned, s.now, found.attempts, lease)]),
           c, Applied(m, o))
  }

  function RunCall(s: State, c: nat): State
    requires c in s.calls
  {
    match s.calls[c]
    case Finding(m, o) =>
      Move(s, c, if m in s.messages then Recording(m, o, s.messages[m]) else NotApplied(m, o))
    case Recording(m, o, found) =>
      Move(s.(receipts := s.receipts + [Receipt(c, m, o)]), c,
           if Target(found, o).Some? then Reckoning(m, o, found) else NotApplied(m, o))
    case Reckoning(m, o, found) => Move(s, c, Swapping(m, o, found, s.now))
    case Swapping(m, o, found, reckoned) =>
      if m in s.messages && Target(found, o).Some? then Swap(s, c, m, o, found, reckoned, Target(found, o).value) else s
    case _ => s
  }

  function Apply(s: State, e: Event): State
  {
    match e
    case Tick(d) => s.(now := s.now + d)
    case Begin(c, m, o) => if c in s.calls then s else Move(s, c, Finding(m, o))
    case Run(c) => if c in s.calls then RunCall(s, c) else s
    case Break(c, landed) =>
      if c !in s.calls || !(s.calls[c].Finding? || Holds(s.calls[c])) then s
      else Move(if landed then RunCall(s, c) else s, c, Broken(s.calls[c].message, s.calls[c].outcome))
    case Other(m, to, attempts, lease) =>
      if m in s.messages && (to == s.messages[m].state || Legal(s.messages[m].state, to))
      then s.(messages := s.messages[m := Write(s.messages[m], to, attempts, lease)])
      else s
  }

  function Exec(s: State, es: seq<Event>): State
  {
    if es == [] then s else Apply(Exec(s, es[..|es| - 1]), es[|es| - 1])
  }

  ghost predicate Start(s: State)
  {
    && s.calls == map[] && s.receipts == [] && s.landings == []
    && (forall m :: m in s.messages ==> s.messages[m].path == [s.messages[m].state])
  }

  /** A path in the transition table that ends where the row is. */
  ghost predicate PathOk(m: Message)
  {
    && m.path != [] && m.path[|m.path| - 1] == m.state
    && (forall i :: 0 < i < |m.path| ==> Legal(m.path[i - 1], m.path[i]))
  }

  /** What the version buys: a row still at the version that was read is still the row that was read. */
  ghost predicate CallOk(s: State, call: Call)
  {
    && !call.Illegal?
    && (Holds(call) ==>
          && call.message in s.messages
          && call.found.version <= s.messages[call.message].version
          && (call.found.version == s.messages[call.message].version ==> call.found == s.messages[call.message]))
    && (call.Reckoning? || call.Swapping? ==> Target(call.found, call.outcome).Some?)
    && (call.Swapping? ==> call.reckoned <= s.now)
  }

  ghost predicate LandingOk(l: Landing)
  {
    && ReceiptEdge(l.from, l.to) && l.reckoned <= l.at
    && (l.to == Undelivered ==> l.lease == Some(l.reckoned + RetryBackoff(l.attempts)))
  }

  ghost predicate Inv(s: State)
  {
    && (forall m :: m in s.messages ==> PathOk(s.messages[m]))
    && (forall c :: c in s.calls ==> CallOk(s, s.calls[c]))
    && (forall k :: 0 <= k < |s.landings| ==> LandingOk(s.landings[k]))
  }

  lemma WriteKeepsPath(m: Message, to: MessageState, attempts: int, lease: Option<int>)
    requires PathOk(m) && (to == m.state || Legal(m.state, to))
    ensures PathOk(Write(m, to, attempts, lease))
  {
  }

  /** A write bumps the version, so nobody who read the row before still holds it. */
  lemma WriteKeepsCall(s: State, t: State, m: nat, call: Call)
    requires m in s.messages && t.messages.Keys == s.messages.Keys && s.now <= t.now && CallOk(s, call)
    requires forall n :: n in s.messages && n != m ==> t.messages[n] == s.messages[n]
    requires t.messages[m].version == s.messages[m].version + 1
    ensures CallOk(t, call)
  {
  }

  lemma SwapKeepsCall(s: State, c: nat, d: nat)
    requires Inv(s) && c in s.calls && s.calls[c].Swapping? && d in s.calls && d != c
    ensures CallOk(RunCall(s, c), s.calls[d])
  {
    assert CallOk(s, s.calls[c]) && CallOk(s, s.calls[d]);
    if RunCall(s, c).messages != s.messages { WriteKeepsCall(s, RunCall(s, c), s.calls[c].message, s.calls[d]); }
  }

  lemma SwapKeepsInv(s: State, c: nat)
    requires Inv(s) && c in s.calls && s.calls[c].Swapping?
    ensures Inv(RunCall(s, c))
  {
    var call, t := s.calls[c], RunCall(s, c);
    assert CallOk(s, call);
    var to := Target(call.found, call.outcome).value;
    ReceiptEdgesAreExact(call.found.state, to);
    assert NextState(call.found.state, call.outcome) == Some(to);
    var row := s.messages[call.message];
    if Legal(row.state, to) {
      WriteKeepsPath(row, to, row.attempts, LeaseFor(row, to, call.reckoned, call.found.attempts));
    }
    forall d | d in t.calls ensures CallOk(t, t.calls[d]) {
      if d != c { SwapKeepsCall(s, c, d); }
    }
  }

  lemma RunKeepsCalls(s: State, c: nat)
    requires Inv(s) && c in s.calls
    ensures Inv(RunCall(s, c))
  {
    if s.calls[c].Swapping? {
      SwapKeepsInv(s, c);
    } else {
      var t := RunCall(s, c);
      assert CallOk(s, s.calls[c]);
      forall d | d in t.calls ensures CallOk(t, t.calls[d]) {
        assert CallOk(s, s.calls[d]);
      }
    }
  }

  lemma OtherKeepsInv(s: State, m: nat, to: MessageState, attempts: int, lease: Option<int>)
    requires Inv(s)
    ensures Inv(Apply(s, Other(m, to, attempts, lease)))
  {
    var t := Apply(s, Other(m, to, attempts, lease));
    if m in s.messages && (to == s.messages[m].state || Legal(s.messages[m].state, to)) {
      WriteKeepsPath(s.messages[m], to, attempts, lease);
      forall d | d in t.calls ensures CallOk(t, t.calls[d]) { WriteKeepsCall(s, t, m, s.calls[d]); }
    }
  }

  lemma BreakKeepsInv(s: State, c: nat, landed: bool)
    requires Inv(s)
    ensures Inv(Apply(s, Break(c, landed)))
  {
    if c in s.calls {
      RunKeepsCalls(s, c);
      var u, t := if landed then RunCall(s, c) else s, Apply(s, Break(c, landed));
      if t != s {
        forall d | d in t.calls ensures CallOk(t, t.calls[d]) {
          if d != c { assert CallOk(u, u.calls[d]); }
        }
      }
    }
  }

  lemma StepKeepsInv(s: State, e: Event)
    requires Inv(s)
    ensures Inv(Apply(s, e))
  {
    match e
    case Run(c) => if c in s.calls { RunKeepsCalls(s, c); }
    case Break(c, landed) => BreakKeepsInv(s, c, landed);
    case Other(m, to, a, l) => OtherKeepsInv(s, m, to, a, l);
    case Tick(_) =>
      forall d | d in s.calls ensures CallOk(Apply(s, e), s.calls[d]) { assert CallOk(s, s.calls[d]); }
    case Begin(_, _, _) =>
      forall d | d in s.calls ensures CallOk(Apply(s, e), s.calls[d]) { assert CallOk(s, s.calls[d]); }
  }

  lemma {:induction false} RunKeepsInv(s: State, es: seq<Event>)
    requires Start(s)
    ensures Inv(Exec(s, es))
  {
    if es != [] {
      RunKeepsInv(s, es[..|es| - 1]);
      StepKeepsInv(Exec(s, es[..|es| - 1]), es[|es| - 1]);
    }
  }

  /** Whatever else writes the rows, as long as it takes legal edges and bumps the version: the history
      of every message is a path in the transition table, every write a receipt lands is a documented
      receipt edge from the state the row really was in, so none leaves a terminal or a pre-submit
      state, and no ingestion ever meets SM001. */
  lemma ReceiptsStayLegal(s: State, es: seq<Event>)
    requires Start(s)
    ensures var t := Exec(s, es);
            && (forall m :: m in t.messages ==> PathOk(t.messages[m]))
            && (forall k :: 0 <= k < |t.landings| ==>
                  && ReceiptEdge(t.landings[k].from, t.landings[k].to)
                  && !Terminal(t.landings[k].from) && !PreSubmit(t.landings[k].from))
            && (forall c :: c in t.calls ==> !t.calls[c].Illegal?)
  {
    RunKeepsInv(s, es);
    var t := Exec(s, es);
    forall k | 0 <= k < |t.landings| ensures !Terminal(t.landings[k].from) && !PreSubmit(t.landings[k].from) {
      assert LandingOk(t.landings[k]);
      ReceiptEdgesAreExact(t.landings[k].from, t.landings[k].to);
    }
    forall c | c in t.calls ensures !t.calls[c].Illegal? { assert CallOk(t, t.calls[c]); }
  }

  lemma FinalStep(s: State, e: Event, m: nat)
    requires m in s.messages && s.messages[m].state in {Delivered, Failed, Expired, Rejected, Cancelled}
    ensures m in Apply(s, e).messages && Apply(s, e).messages[m].state == s.messages[m].state
  {
  }

  /** Final is final: in every run, whoever writes, a message that is delivered, failed, expired, rejected or
      cancelled stays so. */
  lemma {:induction false} FinalIsFinal(s: State, es: seq<Event>, m: nat)
    requires m in s.messages && s.messages[m].state in {Delivered, Failed, Expired, Rejected, Cancelled}
    ensures m in Exec(s, es).messages && Exec(s, es).messages[m].state == s.messages[m].state
  {
    if es != [] {
      FinalIsFinal(s, es[..|es| - 1], m);
      FinalStep(Exec(s, es[..|es| - 1]), es[|es| - 1], m);
    }
  }

  /** A message a receipt sends back for retry is leased 5 seconds to 30 minutes ahead of the clock as it was
      read for it, and no less the more often it has been tried. The update lands later than that: then the
      lease is 30 minutes ahead at most, and ahead at all exactly when it landed within the backoff. */
  lemma RetriesBackOff(s: State, es: seq<Event>, j: nat, k: nat)
    requires Start(s)
    requires var l := Exec(s, es).landings; j < |l| && k < |l| && l[j].to == l[k].to == Undelivered
    ensures var l := Exec(s, es).landings;
            && l[j].lease.Some? && l[j].reckoned <= l[j].at
            && l[j].reckoned + 5 * SECOND <= l[j].lease.value
            && l[j].lease.value <= l[j].reckoned + 1800 * SECOND <= l[j].at + 1800 * SECOND
            && (l[j].lease.value > l[j].at <==> l[j].at - l[j].reckoned < RetryBackoff(l[j].attempts))
            && l[k].lease.Some? && (l[j].attempts <= l[k].attempts ==>
                  l[j].lease.value - l[j].reckoned <= l[k].lease.value - l[k].reckoned)
  {
    RunKeepsInv(s, es);
    var l := Exec(s, es).landings;
    assert LandingOk(l[j]) && LandingOk(l[k]);
    if l[j].attempts <= l[k].attempts { BackoffNeverShrinks(l[j].attempts, l[k].attempts); }
  }

  lemma ExecSnoc(s: State, es: seq<Event>, e: Event)
    ensures Exec(s, es + [e]) == Apply(Exec(s, es), e)
  {
    assert (es + [e])[..|es + [e]| - 1] == es;
  }

  /** A message sent for the `attempts`-th time. */
  function Sent(attempts: int): Message { Message(Submitted, 0, attempts, None, [Submitted]) }

  /** A failed attempt, up to the update. */
  lemma ReckonsTheLease(s: State, attempts: int) returns (es: seq<Event>)
    requires s == State(0, map[0 := Sent(attempts)], map[], [], [])
    ensures var t := Exec(s, es);
            && t.now == 0 && t.messages == s.messages && t.landings == []
            && 0 in t.calls && t.calls[0] == Swapping(0, OFailed, Sent(attempts), 0)
  {
    var run := Run(0);
    ExecSnoc(s, [], Begin(0, 0, OFailed));
    es := [] + [Begin(0, 0, OFailed)];
    assert Exec(s, es).calls[0] == Finding(0, OFailed);
    ExecSnoc(s, es, run);
    es := es + [run];
    assert Exec(s, es).calls[0] == Recording(0, OFailed, Sent(attempts));
    ExecSnoc(s, es, run);
    es := es + [run];
    assert Exec(s, es).calls[0] == Reckoning(0, OFailed, Sent(attempts));
    ExecSnoc(s, es, run);
    es := es + [run];
  }

  /** However long the update waits for the row, it lands: with a lease as much nearer, and past once it has
      waited out the backoff. The landing has no lower bound of its own. */
  lemma LeaseCanBePast(wait: nat, attempts: int) returns (s: State, es: seq<Event>)
    ensures Start(s)
    ensures var l := Exec(s, es).landings;
            && |l| == 1 && l[0].to == Undelivered && l[0].attempts == attempts
            && l[0].at - l[0].reckoned == wait && l[0].lease == Some(l[0].at + RetryBackoff(attempts) - wait)
  {
    s := State(0, map[0 := Sent(attempts)], map[], [], []);
    es := ReckonsTheLease(s, attempts);
    ExecSnoc(s, es, Tick(wait));
    es := es + [Tick(wait)];
    ExecSnoc(s, es, Run(0));
    es := es + [Run(0)];
  }

  /** No update lands more than `w` after the clock was read for it. */
  ghost predicate WaitsAtMost(t: State, w: nat)
  {
    forall k :: 0 <= k < |t.landings| ==> t.landings[k].at - t.landings[k].reckoned <= w
  }

  /** Every message sent back for retry after `attempts` tries or more is leased past the moment it went back. */
  ghost predicate LeasedAhead(t: State, attempts: int)
  {
    forall k :: 0 <= k < |t.landings| && t.landings[k].to == Undelivered && attempts <= t.landings[k].attempts ==>
      t.landings[k].lease.Some? && t.landings[k].at < t.landings[k].lease.value
  }

  /** `w` is a wait under which the retries from `attempts` tries on are always leased ahead. */
  ghost predicate AlwaysAhead(w: nat, attempts: int)
  {
    forall s, es :: Start(s) && WaitsAtMost(Exec(s, es), w) ==> LeasedAhead(Exec(s, es), attempts)
  }

  lemma ShortWaitsStayAhead(s: State, es: seq<Event>, w: nat, attempts: int)
    requires Start(s) && WaitsAtMost(Exec(s, es), w) && w < RetryBackoff(attempts)
    ensures LeasedAhead(Exec(s, es), attempts)
  {
    var l := Exec(s, es).landings;
    forall k | 0 <= k < |l| && l[k].to == Undelivered && attempts <= l[k].attempts
      ensures l[k].lease.Some? && l[k].at < l[k].lease.value
    {
      RetriesBackOff(s, es, k, k);
      BackoffNeverShrinks(attempts, l[k].attempts);
    }
  }

  /** Updates that wait for their rows `w` at most always lease ahead exactly when `w` is less than the backoff
      of the fewest tries; so a bound below the shortest backoff, 5 seconds, is what all retries need. */
  lemma AheadExactly(w: nat, attempts: int)
    ensures AlwaysAhead(w, attempts) <==> w < RetryBackoff(attempts)
    ensures (forall a :: AlwaysAhead(w, a)) <==> w < 5 * SECOND
  {
    forall a ensures AlwaysAhead(w, a) <==> w < RetryBackoff(a) {
      if w < RetryBackoff(a) {
        forall s, es | Start(s) && WaitsAtMost(Exec(s, es), w) ensures LeasedAhead(Exec(s, es), a) {
          ShortWaitsStayAhead(s, es, w, a);
        }
      } else {
        var s, es := LeaseCanBePast(w, a);
        assert WaitsAtMost(Exec(s, es), w) && !LeasedAhead(Exec(s, es), a);
      }
    }
    assert AlwaysAhead(w, 1) ==> w < RetryBackoff(1) == 5 * SECOND;
  }

  // ----- receipts -----

  /** How many receipts call `c` has written. */
  function ReceiptsOf(receipts: seq<Receipt>, c: nat): nat
  {
    if receipts == [] then 0
    else ReceiptsOf(receipts[..|receipts| - 1], c) + if receipts[|receipts| - 1].call == c then 1 else 0
  }

  /** How many receipts a call at this point must have written; a failed one may have either. */
  ghost predicate Owes(s: State, call: Call, n: nat)
  {
    match call
    case Finding(_, _) => n == 0
    case Recording(_, _, _) => n == 0
    case Reckoning(_, _, _) => n == 1
    case Swapping(_, _, _, _) => n == 1
    case Applied(_, _) => n == 1
    case NotApplied(m, _) => if m in s.messages then n == 1 else n == 0
    case _ => n <= 1
  }

  ghost predicate DebtOk(s: State, c: nat)
  {
    if c in s.calls then Owes(s, s.calls[c], ReceiptsOf(s.receipts, c)) else ReceiptsOf(s.receipts, c) == 0
  }

  ghost predicate ReceiptsOk(s: State)
  {
    && (forall c :: DebtOk(s, c))
    && (forall c :: c in s.calls && Holds(s.calls[c]) ==> s.calls[c].message in s.messages)
    && (forall k :: 0 <= k < |s.receipts| ==> ReceiptFits(s, s.receipts[k]))
  }

  ghost predicate ReceiptFits(s: State, r: Receipt)
  {
    r.call in s.calls && s.calls[r.call].message == r.message && s.calls[r.call].outcome == r.outcome
  }

  /** The step of one call: what may happen to its place without a receipt being written. */
  ghost predicate SameDebt(s: State, a: Call, t: State, b: Call)
  {
    && b.message == a.message && b.outcome == a.outcome
    && (forall n: nat :: Owes(s, a, n) ==> Owes(t, b, n))
    && (Holds(b) ==> b.message in t.messages)
  }

  lemma NoReceiptWritten(s: State, t: State)
    requires ReceiptsOk(s) && t.receipts == s.receipts && s.calls.Keys <= t.calls.Keys
    requires s.messages.Keys == t.messages.Keys
    requires forall c :: c in t.calls ==>
               if c in s.calls then t.calls[c] == s.calls[c] || SameDebt(s, s.calls[c], t, t.calls[c])
               else t.calls[c].Finding?
    ensures ReceiptsOk(t)
  {
    forall d ensures DebtOk(t, d) { assert DebtOk(s, d); }
    forall k | 0 <= k < |t.receipts| ensures ReceiptFits(t, t.receipts[k]) { assert ReceiptFits(s, s.receipts[k]); }
  }

  lemma ReceiptsSnoc(receipts: seq<Receipt>, r: Receipt, c: nat)
    ensures ReceiptsOf(receipts + [r], c) == ReceiptsOf(receipts, c) + if r.call == c then 1 else 0
  {
    assert (receipts + [r])[..|receipts|] == receipts;
  }

  lemma RecordingSettlesTheDebt(s: State, c: nat, t: State, d: nat)
    requires ReceiptsOk(s) && c in s.calls && s.calls[c].Recording? && t == RunCall(s, c)
    ensures DebtOk(t, d)
  {
    ReceiptsSnoc(s.receipts, Receipt(c, s.calls[c].message, s.calls[c].outcome), d);
    assert DebtOk(s, d);
  }

  lemma RecordingKeepsReceipts(s: State, c: nat)
    requires ReceiptsOk(s) && c in s.calls && s.calls[c].Recording?
    ensures ReceiptsOk(RunCall(s, c))
  {
    var t := RunCall(s, c);
    forall d ensures DebtOk(t, d) { RecordingSettlesTheDebt(s, c, t, d); }
    forall k | 0 <= k < |t.receipts| ensures ReceiptFits(t, t.receipts[k]) {
      if k < |s.receipts| { assert ReceiptFits(s, s.receipts[k]); }
    }
  }

  lemma RunKeepsReceipts(s: State, c: nat)
    requires ReceiptsOk(s) && c in s.calls
    ensures ReceiptsOk(RunCall(s, c))
  {
    if s.calls[c].Recording? { RecordingKeepsReceipts(s, c); }
    else { NoReceiptWritten(s, RunCall(s, c)); }
  }

  lemma RunNamesTheSameUpdate(s: State, c: nat)
    requires c in s.calls
    ensures c in RunCall(s, c).calls && RunCall(s, c).messages.Keys == s.messages.Keys
    ensures RunCall(s, c).calls[c].message == s.calls[c].message
    ensures RunCall(s, c).calls[c].outcome == s.calls[c].outcome
  {
  }

  lemma BreakKeepsReceipts(s: State, c: nat, landed: bool)
    requires ReceiptsOk(s)
    ensures ReceiptsOk(Apply(s, Break(c, landed)))
  {
    var t := Apply(s, Break(c, landed));
    if t != s {
      RunKeepsReceipts(s, c);
      RunNamesTheSameUpdate(s, c);
      var u := if landed then RunCall(s, c) else s;
      assert SameDebt(u, u.calls[c], t, t.calls[c]);
      NoReceiptWritten(u, t);
    }
  }

  lemma StepKeepsReceipts(s: State, e: Event)
    requires ReceiptsOk(s)
    ensures ReceiptsOk(Apply(s, e))
  {
    match e
    case Run(c) => if c in s.calls { RunKeepsReceipts(s, c); }
    case Break(c, landed) => BreakKeepsReceipts(s, c, landed);
    case _ => NoReceiptWritten(s, Apply(s, e));
  }

  lemma {:induction false} RunKeepsReceiptsAlways(s: State, es: seq<Event>)
    requires Start(s)
    ensures ReceiptsOk(Exec(s, es))
  {
    if es != [] {
      RunKeepsReceiptsAlways(s, es[..|es| - 1]);
      StepKeepsReceipts(Exec(s, es[..|es| - 1]), es[|es| - 1]);
    }
  }

  /** Every ingestion that matched a message and did not fail has left exactly one receipt, whether or
      not it moved the message; one that failed at most one; and a receipt records what arrived. */
  lemma ExactlyOneReceipt(s: State, es: seq<Event>, c: nat)
    requires Start(s) && c in Exec(s, es).calls
    ensures var t := Exec(s, es);
            var n := ReceiptsOf(t.receipts, c);
            && n <= 1
            && (t.calls[c].Applied? || (t.calls[c].NotApplied? && t.calls[c].message in t.messages) ==> n == 1)
            && (forall k :: 0 <= k < |t.receipts| && t.receipts[k].call == c ==>
                  t.receipts[k] == Receipt(c, t.calls[c].message, t.calls[c].outcome))
  {
    RunKeepsReceiptsAlways(s, es);
    var t := Exec(s, es);
    assert DebtOk(t, c);
    forall k | 0 <= k < |t.receipts| && t.receipts[k].call == c
      ensures t.receipts[k] == Receipt(c, t.calls[c].message, t.calls[c].outcome)
    {
      assert ReceiptFits(t, t.receipts[k]);
    }
  }

  // ----- what a landing says -----

  /** A write a receipt landed is of the message its call is about, goes where the call's outcome says, and
      the call is over. */
  ghost predicate LandingFits(s: State, l: Landing)
  {
    && l.call in s.calls && s.calls[l.call].message == l.message
    && (s.calls[l.call].Applied? || s.calls[l.call].Broken?)
    && Says(s.calls[l.call].outcome, l.to)
    && (s.calls[l.call].outcome == OFailed ==> (l.to == Failed <==> l.from == Uncertain))
  }

  ghost predicate LandingsFit(s: State)
  {
    forall k :: 0 <= k < |s.landings| ==> LandingFits(s, s.landings[k])
  }

  lemma SwapFits(s: State, c: nat)
    requires Inv(s) && LandingsFit(s) && c in s.calls && s.calls[c].Swapping?
    ensures LandingsFit(RunCall(s, c))
  {
    var call, t := s.calls[c], RunCall(s, c);
    assert CallOk(s, call);
    VerdictsLead(call.found.state, call.outcome);
    forall k | 0 <= k < |t.landings| ensures LandingFits(t, t.landings[k]) {
      if k < |s.landings| { assert LandingFits(s, s.landings[k]); }
    }
  }

  lemma RunFits(s: State, c: nat)
    requires Inv(s) && LandingsFit(s) && c in s.calls
    ensures LandingsFit(RunCall(s, c))
  {
    if s.calls[c].Swapping? {
      SwapFits(s, c);
    } else {
      forall k | 0 <= k < |s.landings| ensures LandingFits(RunCall(s, c), s.landings[k]) {
        assert LandingFits(s, s.landings[k]);
      }
    }
  }

  lemma BreakFits(s: State, c: nat, landed: bool)
    requires Inv(s) && LandingsFit(s)
    ensures LandingsFit(Apply(s, Break(c, landed)))
  {
    var t := Apply(s, Break(c, landed));
    if t != s {
      RunFits(s, c);
      RunNamesTheSameUpdate(s, c);
      var u := if landed then RunCall(s, c) else s;
      forall k | 0 <= k < |t.landings| ensures LandingFits(t, t.landings[k]) {
        assert LandingFits(u, u.landings[k]);
      }
    }
  }

  lemma {:induction false} RunKeepsFits(s: State, es: seq<Event>)
    requires Start(s)
    ensures LandingsFit(Exec(s, es))
  {
    if es != [] {
      var front, e := Exec(s, es[..|es| - 1]), es[|es| - 1];
      RunKeepsFits(s, es[..|es| - 1]);
      RunKeepsInv(s, es[..|es| - 1]);
      match e
      case Run(c) => if c in front.calls { RunFits(front, c); }
      case Break(c, landed) => BreakFits(front, c, landed);
      case _ =>
        forall k | 0 <= k < |front.landings| ensures LandingFits(Apply(front, e), front.landings[k]) {
          assert LandingFits(front, front.landings[k]);
        }
    }
  }

  /** Over every run, no write lands that its update did not say: a message becomes delivered by a receipt only
      if that receipt said delivered, and so for every state; a retryable failure is final exactly where the
      message was uncertain. That receipt is recorded, once. */
  lemma LandingsAreSaid(s: State, es: seq<Event>, k: nat)
    requires Start(s) && k < |Exec(s, es).landings|
    ensures var (t, l) := (Exec(s, es), Exec(s, es).landings[k]);
            && l.call in t.calls && t.calls[l.call].message == l.message
            && Says(t.calls[l.call].outcome, l.to)
            && (t.calls[l.call].outcome == OFailed ==> (l.to == Failed <==> l.from == Uncertain))
            && (t.calls[l.call].Applied? ==> ReceiptsOf(t.receipts, l.call) == 1)
  {
    RunKeepsFits(s, es);
    assert LandingFits(Exec(s, es), Exec(s, es).landings[k]);
    ExactlyOneReceipt(s, es, Exec(s, es).landings[k].call);
  }

  // ----- one ingestion that nobody disturbs -----

  function Alone(c: nat, m: nat, o: DeliveryOutcome): seq<Event>
  {
    [Begin(c, m, o), Run(c), Run(c), Run(c), Run(c)]
  }

  lemma AloneReads(s: State, c: nat, m: nat, o: DeliveryOutcome)
    requires c !in s.calls && m in s.messages
    ensures Apply(Apply(s, Begin(c, m, o)), Run(c)) == Move(s, c, Recording(m, o, s.messages[m]))
  {
    assert Apply(s, Begin(c, m, o)) == Move(s, c, Finding(m, o));
  }

  lemma AloneIs(s: State, c: nat, m: nat, o: DeliveryOutcome)
    requires c !in s.calls && m in s.messages
    ensures Exec(s, Alone(c, m, o)) ==
            Apply(Apply(Apply(Move(s, c, Recording(m, o, s.messages[m])), Run(c)), Run(c)), Run(c))
  {
    var es := Alone(c, m, o);
    assert es[..4][..3] == es[..3] && es[..3][..2] == es[..2] && es[..2][..1] == es[..1] && es[..1][..0] == [];
    assert Exec(s, es[..1]) == Apply(s, es[0]);
    assert Exec(s, es[..2]) == Apply(Exec(s, es[..1]), es[1]);
    AloneReads(s, c, m, o);
    assert Exec(s, es[..3]) == Apply(Exec(s, es[..2]), es[2]);
    assert Exec(s, es[..4]) == Apply(Exec(s, es[..3]), es[3]);
  }

  /** The receipt is in, and the call goes on to `phase`. */
  function AfterReceipt(s: State, c: nat, m: nat, o: DeliveryOutcome, phase: Call): State
  {
    Move(s.(receipts := s.receipts + [Receipt(c, m, o)]), c, phase)
  }

  lemma AloneRecords(s: State, c: nat, m: nat, o: DeliveryOutcome, row: Message)
    ensures Apply(Move(s, c, Recording(m, o, row)), Run(c)) ==
            AfterReceipt(s, c, m, o,
                         if Deliver(row.state, o) == row.state then NotApplied(m, o) else Reckoning(m, o, row))
  {
  }

  /** One that leads nowhere leaves its receipt, and the row as it is. */
  lemma UndisturbedRests(s: State, c: nat, m: nat, o: DeliveryOutcome)
    requires c !in s.calls && m in s.messages && Deliver(s.messages[m].state, o) == s.messages[m].state
    ensures Exec(s, Alone(c, m, o)) == AfterReceipt(s, c, m, o, NotApplied(m, o))
  {
    AloneIs(s, c, m, o);
    AloneRecords(s, c, m, o, s.messages[m]);
  }

  /** The message where the verdict leads, with one version more and, sent back for retry, a lease of the backoff
      from now. */
  function Led(s: State, c: nat, m: nat, o: DeliveryOutcome): State
    requires m in s.messages
  {
    var row := s.messages[m];
    var to := Deliver(row.state, o);
    var lease := if to == Undelivered then Some(s.now + RetryBackoff(row.attempts)) else row.leaseUntil;
    Move(s.(messages := s.messages[m := Message(to, row.version + 1, row.attempts, lease, row.path + [to])],
            landings := s.landings + [Landing(c, m, row.state, to, s.now, s.now, row.attempts, lease)]),
         c, Applied(m, o))
  }

  lemma AloneSwaps(s: State, c: nat, m: nat, o: DeliveryOutcome)
    requires m in s.messages && Deliver(s.messages[m].state, o) != s.messages[m].state
    ensures Apply(Apply(Move(s, c, Reckoning(m, o, s.messages[m])), Run(c)), Run(c)) == Led(s, c, m, o)
  {
    var (row, to) := (s.messages[m], Deliver(s.messages[m].state, o));
    assert NextState(row.state, o) == Some(to);
    ReceiptEdgesAreExact(row.state, to);
    assert Apply(Move(s, c, Reckoning(m, o, row)), Run(c)) == Move(s, c, Swapping(m, o, row, s.now));
  }

  /** From any moment: an update of a message that nobody else is writing leaves its one receipt and takes the
      message where the verdict leads. */
  lemma UndisturbedMoves(s: State, c: nat, m: nat, o: DeliveryOutcome)
    requires c !in s.calls && m in s.messages && Deliver(s.messages[m].state, o) != s.messages[m].state
    ensures Exec(s, Alone(c, m, o)) == Led(s.(receipts := s.receipts + [Receipt(c, m, o)]), c, m, o)
  {
    AloneIs(s, c, m, o);
    AloneRecords(s, c, m, o, s.messages[m]);
    AloneSwaps(s.(receipts := s.receipts + [Receipt(c, m, o)]), c, m, o);
  }
}

/** `ingest` as the program runs it: one callback's updates, one after another, any of which may fail. */
module DlrIngest {
  import opened Options
  import opened MessageStates

  datatype Message = Message(
    providerId: string, providerMessageRef: Option<string>, providerMessageRefAlt: Option<string>,
    state: MessageState, version: nat, attempts: int, leaseUntil: Option<int>)

  datatype Update = Update(providerRef: string, outcome: DeliveryOutcome)
  datatype Receipt = Receipt(message: nat, providerId: string, outcome: DeliveryOutcome)

  /** How one update went. One that broke was logged, and may have left its receipt, or that and the move. */
  datatype Took =
    | Unmatched
    | Ingested(message: nat)
    | Unread                                // the read failed
    | Unrecorded(message: nat, left: bool)  // the receipt failed; `left`: it had committed
    | Unmoved(message: nat, moved: bool)    // the update failed; `moved`: it had committed

  predicate Matches(m: Message, providerId: string, reference: string)
  {
    && m.providerId == providerId
    && (m.providerMessageRef == Some(reference) || m.providerMessageRefAlt == Some(reference))
  }

  function Matched(took: Took): Option<nat>
  {
    match took
    case Unmatched => None
    case Unread => None
    case _ => Some(took.message)
  }

  /** How many of the updates broke. */
  function Breaks(took: seq<Took>): nat
  {
    if |took| == 0 then 0 else Breaks(took[..|took| - 1]) + Broke(took[|took| - 1])
  }

  function Broke(took: Took): nat { if took.Unmatched? || took.Ingested? then 0 else 1 }

  lemma OneMoreBreak(took: seq<Took>, one: Took)
    ensures Breaks(took + [one]) == Breaks(took) + Broke(one)
  {
    assert (took + [one])[..|took|] == took;
  }

  /** The message an update was applied to. */
  function Applied(took: Took): Option<nat>
  {
    match took
    case Ingested(m) => Some(m)
    case Unmoved(m, moved) => if moved then Some(m) else None
    case _ => None
  }

  /** The message an update left a receipt for. */
  function Recorded(took: Took): Option<nat>
  {
    match took
    case Ingested(m) => Some(m)
    case Unmoved(m, _) => Some(m)
    case Unrecorded(m, left) => if left then Some(m) else None
    case _ => None
  }

  /** The row after one receipt that nothing raced, its lease reckoned from `now`. */
  function Moved(m: Message, o: DeliveryOutcome, now: int): Message
  {
    var to := Deliver(m.state, o);
    if to == m.state then m
    else m.(state := to, version := m.version + 1,
            leaseUntil := if to == Undelivered then Some(now + RetryBackoff(m.attempts)) else m.leaseUntil)
  }

  /** The outcomes of the updates that were applied to message `m`, in order. */
  function OutcomesFor(updates: seq<Update>, took: seq<Took>, m: nat): seq<DeliveryOutcome>
    requires |updates| == |took|
  {
    if |updates| == 0 then []
    else
      var n := |updates| - 1;
      OutcomesFor(updates[..n], took[..n], m) + if Applied(took[n]) == Some(m) then [updates[n].outcome] else []
  }

  /** The receipt an update leaves. */
  function Left(providerId: string, update: Update, took: Took): seq<Receipt>
  {
    match Recorded(took)
    case Some(m) => [Receipt(m, providerId, update.outcome)]
    case None => []
  }

  function ReceiptsFor(providerId: string, updates: seq<Update>, took: seq<Took>): seq<Receipt>
    requires |updates| == |took|
  {
    if |updates| == 0 then []
    else
      var n := |updates| - 1;
      ReceiptsFor(providerId, updates[..n], took[..n]) + Left(providerId, updates[n], took[n])
  }

  /** The match is a row the provider and reference name, or there is none, or nobody looked. */
  ghost predicate MatchOk(messages: map<nat, Message>, providerId: string, update: Update, took: Took)
  {
    var reference := Some(update.providerRef);
    match Matched(took)
    case Some(m) =>
      && m in messages && messages[m].providerId == providerId
      && (messages[m].providerMessageRef == reference || messages[m].providerMessageRefAlt == reference)
    case None =>
      took.Unmatched? ==>
        forall m :: m in messages && messages[m].providerId == providerId ==>
          messages[m].providerMessageRef != reference && messages[m].providerMessageRefAlt != reference
  }

  ghost predicate MatchedOk(messages: map<nat, Message>, providerId: string, updates: seq<Update>, took: seq<Took>)
  {
    |took| == |updates| && forall i :: 0 <= i < |updates| ==> MatchOk(messages, providerId, updates[i], took[i])
  }

  /** Nothing a message is known by has changed. */
  ghost predicate SameNames(was: map<nat, Message>, messages: map<nat, Message>)
  {
    && messages.Keys == was.Keys
    && forall m :: m in messages ==>
         && messages[m].providerId == was[m].providerId
         && messages[m].providerMessageRef == was[m].providerMessageRef
         && messages[m].providerMessageRefAlt == was[m].providerMessageRefAlt
  }

  function AfterOne(messages: map<nat, Message>, update: Update, applied: Option<nat>, now: int): map<nat, Message>
  {
    match applied
    case Some(m) => if m in messages then messages[m := Moved(messages[m], update.outcome, now)] else messages
    case None => messages
  }

  lemma OutcomesSnoc(updates: seq<Update>, took: seq<Took>, update: Update, one: Took, m: nat)
    requires |updates| == |took|
    ensures OutcomesFor(updates + [update], took + [one], m) ==
            OutcomesFor(updates, took, m) + if Applied(one) == Some(m) then [update.outcome] else []
  {
    assert (updates + [update])[..|updates|] == updates && (took + [one])[..|took|] == took;
  }

  lemma MovedOne(messages: map<nat, Message>, update: Update, applied: Option<nat>, now: int, m: nat)
    requires m in messages
    ensures var after := AfterOne(messages, update, applied, now);
            && m in after
            && after[m].state == if applied == Some(m) then Deliver(messages[m].state, update.outcome)
                                 else messages[m].state
  {
  }

  lemma NamesStay(was: map<nat, Message>, messages: map<nat, Message>, update: Update, applied: Option<nat>, now: int)
    requires SameNames(was, messages)
    ensures SameNames(was, AfterOne(messages, update, applied, now))
  {
  }

  /** Where one message is after one more update. */
  lemma OneMoreState(state: MessageState, at: MessageState, updates: seq<Update>, took: seq<Took>, update: Update,
                     one: Took, m: nat)
    requires |updates| == |took| && at == DeliverAll(state, OutcomesFor(updates, took, m))
    ensures (if Applied(one) == Some(m) then Deliver(at, update.outcome) else at)
            == DeliverAll(state, OutcomesFor(updates + [update], took + [one], m))
  {
    OutcomesSnoc(updates, took, update, one, m);
    var so := OutcomesFor(updates, took, m);
    if Applied(one) == Some(m) { DeliverSnoc(state, so, update.outcome); } else { assert so + [] == so; }
  }

  /** The messages once these updates have been taken, each with the clock read for its lease. */
  ghost function Replay(was: map<nat, Message>, updates: seq<Update>, took: seq<Took>, times: seq<int>)
    : map<nat, Message>
    requires |updates| == |took| == |times|
  {
    if |updates| == 0 then was
    else
      var n := |updates| - 1;
      AfterOne(Replay(was, updates[..n], took[..n], times[..n]), updates[n], Applied(took[n]), times[n])
  }

  lemma ReplaySnoc(was: map<nat, Message>, updates: seq<Update>, took: seq<Took>, times: seq<int>, update: Update,
                   one: Took, time: int)
    requires |updates| == |took| == |times|
    ensures Replay(was, updates + [update], took + [one], times + [time]) ==
            AfterOne(Replay(was, updates, took, times), update, Applied(one), time)
  {
    assert (updates + [update])[..|updates|] == updates && (took + [one])[..|took|] == took
      && (times + [time])[..|times|] == times;
  }

  lemma {:induction false} ReplayKeepsNames(was: map<nat, Message>, updates: seq<Update>, took: seq<Took>,
                                            times: seq<int>)
    requires |updates| == |took| == |times|
    ensures SameNames(was, Replay(was, updates, took, times))
  {
    if |updates| > 0 {
      var n := |updates| - 1;
      ReplayKeepsNames(was, updates[..n], took[..n], times[..n]);
      NamesStay(was, Replay(was, updates[..n], took[..n], times[..n]), updates[n], Applied(took[n]), times[n]);
    }
  }

  /** Every message ends where the updates applied to it, taken in order, lead, whatever failed in between. */
  lemma {:induction false} CallbackArrives(was: map<nat, Message>, updates: seq<Update>, took: seq<Took>,
                                           times: seq<int>, m: nat)
    requires |updates| == |took| == |times| && m in was
    ensures m in Replay(was, updates, took, times)
    ensures Replay(was, updates, took, times)[m].state == DeliverAll(was[m].state, OutcomesFor(updates, took, m))
  {
    ReplayKeepsNames(was, updates, took, times);
    if |updates| > 0 {
      var n := |updates| - 1;
      var before := Replay(was, updates[..n], took[..n], times[..n]);
      CallbackArrives(was, updates[..n], took[..n], times[..n], m);
      MovedOne(before, updates[n], Applied(took[n]), times[n], m);
      OneMoreState(was[m].state, before[m].state, updates[..n], took[..n], updates[n], took[n], m);
      assert updates[..n] + [updates[n]] == updates && took[..n] + [took[n]] == took;
    }
  }

  /** An update that was applied to this message. */
  predicate AppliedAt(took: seq<Took>, i: nat, m: nat) { i < |took| && Applied(took[i]) == Some(m) }

  lemma {:induction false} OutcomeIsAnUpdates(updates: seq<Update>, took: seq<Took>, m: nat, k: nat) returns (i: nat)
    requires |updates| == |took| && k < |OutcomesFor(updates, took, m)|
    ensures AppliedAt(took, i, m) && updates[i].outcome == OutcomesFor(updates, took, m)[k]
  {
    var n := |updates| - 1;
    if k < |OutcomesFor(updates[..n], took[..n], m)| {
      i := OutcomeIsAnUpdates(updates[..n], took[..n], m, k);
      assert took[..n][i] == took[i];
    } else {
      i := n;
    }
  }

  /** After a callback a message is where it was, or where an update applied to it said. */
  lemma CallbackSays(was: map<nat, Message>, updates: seq<Update>, took: seq<Took>, times: seq<int>, m: nat)
    requires |updates| == |took| == |times| && m in was
    ensures m in Replay(was, updates, took, times)
    ensures var to := Replay(was, updates, took, times)[m].state;
            to == was[m].state || exists i: nat :: AppliedAt(took, i, m) && Says(updates[i].outcome, to)
  {
    CallbackArrives(was, updates, took, times, m);
    var os, to := OutcomesFor(updates, took, m), Replay(was, updates, took, times)[m].state;
    EndsOnlyAsTold(was[m].state, os);
    if to != was[m].state {
      var k :| 0 <= k < |os| && Says(os[k], to);
      var i := OutcomeIsAnUpdates(updates, took, m, k);
    }
  }

  lemma MovesSnoc(s: MessageState, os: seq<DeliveryOutcome>, o: DeliveryOutcome)
    ensures Moves(s, os + [o]) == Moves(s, os) + if Deliver(DeliverAll(s, os), o) != DeliverAll(s, os) then 1 else 0
  {
    assert (os + [o])[..|os|] == os;
  }

  lemma OneMoreMove(s: MessageState, updates: seq<Update>, took: seq<Took>, update: Update, one: Took, m: nat)
    requires |updates| == |took|
    ensures var (os, more) := (OutcomesFor(updates, took, m), OutcomesFor(updates + [update], took + [one], m));
            Moves(s, more) == Moves(s, os) + if Applied(one) == Some(m)
                                                && Deliver(DeliverAll(s, os), update.outcome) != DeliverAll(s, os)
                                             then 1 else 0
  {
    OutcomesSnoc(updates, took, update, one, m);
    var os := OutcomesFor(updates, took, m);
    if Applied(one) == Some(m) { MovesSnoc(s, os, update.outcome); } else { assert os + [] == os; }
  }

  lemma MovedVersion(messages: map<nat, Message>, update: Update, applied: Option<nat>, now: int, m: nat)
    requires m in messages
    ensures var (row, after) := (messages[m], AfterOne(messages, update, applied, now));
            && m in after && after[m].attempts == row.attempts
            && after[m].version ==
               row.version + if applied == Some(m) && Deliver(row.state, update.outcome) != row.state then 1 else 0
  {
  }

  /** The version counts the moves, and the attempts stay. */
  lemma {:induction false} VersionCountsMoves(was: map<nat, Message>, updates: seq<Update>, took: seq<Took>,
                                              times: seq<int>, m: nat)
    requires |updates| == |took| == |times| && m in was
    ensures m in Replay(was, updates, took, times)
    ensures var after := Replay(was, updates, took, times)[m];
            && after.version == was[m].version + Moves(was[m].state, OutcomesFor(updates, took, m))
            && after.attempts == was[m].attempts
  {
    if |updates| > 0 {
      var n := |updates| - 1;
      VersionCountsMoves(was, updates[..n], took[..n], times[..n], m);
      CallbackArrives(was, updates[..n], took[..n], times[..n], m);
      OneMoreMove(was[m].state, updates[..n], took[..n], updates[n], took[n], m);
      assert updates[..n] + [updates[n]] == updates && took[..n] + [took[n]] == took;
      MovedVersion(Replay(was, updates[..n], took[..n], times[..n]), updates[n], Applied(took[n]), times[n], m);
    }
  }

  /** A retryable failure gave this lease: the backoff from the clock read for it. */
  ghost predicate Leased(updates: seq<Update>, took: seq<Took>, times: seq<int>, m: nat, attempts: int,
                         lease: Option<int>)
    requires |updates| == |took| == |times|
  {
    exists i: nat :: AppliedAt(took, i, m) && updates[i].outcome == OFailed
                     && lease == Some(times[i] + RetryBackoff(attempts))
  }

  lemma LeasedStays(updates: seq<Update>, took: seq<Took>, times: seq<int>, m: nat, attempts: int, lease: Option<int>)
    requires |updates| == |took| == |times| > 0
    requires var n := |updates| - 1; Leased(updates[..n], took[..n], times[..n], m, attempts, lease)
    ensures Leased(updates, took, times, m, attempts, lease)
  {
    var n := |updates| - 1;
    var i: nat :| AppliedAt(took[..n], i, m) && updates[..n][i].outcome == OFailed
                  && lease == Some(times[..n][i] + RetryBackoff(attempts));
    assert AppliedAt(took, i, m) && updates[i].outcome == OFailed;
  }

  /** One more update: only one that sends the message back touches its lease. */
  lemma OneMoreLease(row: Message, o: DeliveryOutcome, now: int)
    ensures var after := Moved(row, o, now);
            if after.state == Undelivered && row.state != Undelivered
            then o == OFailed && after.leaseUntil == Some(now + RetryBackoff(row.attempts))
            else after.leaseUntil == row.leaseUntil
  {
    VerdictsLead(row.state, o);
  }

  /** The lease is the one the retryable failure that sent the message back gave it, or as it was. */
  lemma {:induction false} LeaseIsOfTheFailure(was: map<nat, Message>, updates: seq<Update>, took: seq<Took>,
                                               times: seq<int>, m: nat)
    requires |updates| == |took| == |times| && m in was
    ensures m in Replay(was, updates, took, times)
    ensures var after := Replay(was, updates, took, times)[m];
            || Leased(updates, took, times, m, was[m].attempts, after.leaseUntil)
            || (after.leaseUntil == was[m].leaseUntil && (after.state == Undelivered ==> was[m].state == Undelivered))
  {
    if |updates| > 0 {
      var n := |updates| - 1;
      VersionCountsMoves(was, updates[..n], took[..n], times[..n], m);
      LeaseIsOfTheFailure(was, updates[..n], took[..n], times[..n], m);
      var row := Replay(was, updates[..n], took[..n], times[..n])[m];
      if Leased(updates[..n], took[..n], times[..n], m, was[m].attempts, row.leaseUntil) {
        LeasedStays(updates, took, times, m, was[m].attempts, row.leaseUntil);
      }
      OneMoreLease(row, updates[n].outcome, times[n]);
      assert AppliedAt(took, n, m) <==> Applied(took[n]) == Some(m);
    }
  }

  /** Every update that was ingested left the receipt of what it said. */
  lemma {:induction false} IngestedLeavesItsReceipt(providerId: string, updates: seq<Update>, took: seq<Took>, i: nat)
    requires |updates| == |took| && i < |took| && took[i].Ingested?
    ensures Receipt(took[i].message, providerId, updates[i].outcome) in ReceiptsFor(providerId, updates, took)
  {
    var n := |updates| - 1;
    if i < n {
      IngestedLeavesItsReceipt(providerId, updates[..n], took[..n], i);
    } else {
      assert Left(providerId, updates[n], took[n]) == [Receipt(took[n].message, providerId, updates[n].outcome)];
    }
  }

  /** And each receipt is of an update that named a message, one at most. */
  lemma {:induction false} ReceiptsAreOfUpdates(providerId: string, updates: seq<Update>, took: seq<Took>, k: nat)
    returns (i: nat)
    requires |updates| == |took| && k < |ReceiptsFor(providerId, updates, took)|
    ensures k <= i < |updates| && Matched(took[i]).Some?
    ensures ReceiptsFor(providerId, updates, took)[k] == Receipt(Matched(took[i]).value, providerId, updates[i].outcome)
  {
    var n := |updates| - 1;
    ReceiptsAreFew(providerId, updates[..n], took[..n]);
    if k < |ReceiptsFor(providerId, updates[..n], took[..n])| {
      i := ReceiptsAreOfUpdates(providerId, updates[..n], took[..n], k);
    } else {
      i := n;
    }
  }

  lemma {:induction false} ReceiptsAreFew(providerId: string, updates: seq<Update>, took: seq<Took>)
    requires |updates| == |took|
    ensures |ReceiptsFor(providerId, updates, took)| <= |updates|
  {
    if |updates| > 0 { ReceiptsAreFew(providerId, updates[..|updates| - 1], took[..|updates| - 1]); }
  }

  lemma SameMatch(was: map<nat, Message>, messages: map<nat, Message>, providerId: string, update: Update, one: Took)
    requires SameNames(was, messages) && MatchOk(messages, providerId, update, one)
    ensures MatchOk(was, providerId, update, one)
  {
  }

  lemma MatchedSnoc(was: map<nat, Message>, providerId: string, updates: seq<Update>, took: seq<Took>, update: Update,
                    one: Took)
    requires MatchedOk(was, providerId, updates, took) && MatchOk(was, providerId, update, one)
    ensures MatchedOk(was, providerId, updates + [update], took + [one])
  {
    var (us, ts) := (updates + [update], took + [one]);
    forall i | 0 <= i < |us| ensures MatchOk(was, providerId, us[i], ts[i]) {
      if i < |updates| { assert us[i] == updates[i] && ts[i] == took[i]; }
    }
  }

  lemma OneMoreReceipt(providerId: string, updates: seq<Update>, took: seq<Took>, update: Update, one: Took)
    requires |updates| == |took|
    ensures ReceiptsFor(providerId, updates + [update], took + [one]) ==
            ReceiptsFor(providerId, updates, took) + Left(providerId, update, one)
  {
    assert (updates + [update])[..|updates|] == updates && (took + [one])[..|took|] == took;
  }

  /** One more update taken: what was matched, where the messages are, what receipts are left. */
  lemma OneMoreTaken(was: map<nat, Message>, providerId: string, updates: seq<Update>, i: nat, took: seq<Took>,
                     times: seq<int>, one: Took, time: int)
    requires i < |updates| && |took| == |times| == i && MatchedOk(was, providerId, updates[..i], took)
    requires MatchOk(Replay(was, updates[..i], took, times), providerId, updates[i], one)
    ensures MatchedOk(was, providerId, updates[..i + 1], took + [one])
    ensures Replay(was, updates[..i + 1], took + [one], times + [time]) ==
            AfterOne(Replay(was, updates[..i], took, times), updates[i], Applied(one), time)
    ensures ReceiptsFor(providerId, updates[..i + 1], took + [one]) ==
            ReceiptsFor(providerId, updates[..i], took) + Left(providerId, updates[i], one)
  {
    assert updates[..i + 1] == updates[..i] + [updates[i]];
    ReplayKeepsNames(was, updates[..i], took, times);
    SameMatch(was, Replay(was, updates[..i], took, times), providerId, updates[i], one);
    MatchedSnoc(was, providerId, updates[..i], took, updates[i], one);
    ReplaySnoc(was, updates[..i], took, times, updates[i], one, time);
    OneMoreReceipt(providerId, updates[..i], took, updates[i], one);
  }

  class Store {
    var messages: map<nat, Message>
    var receipts: seq<Receipt>
    var now: int
    var failures: nat  // statements the database has failed so far
    ghost var awaits: seq<int>  // when each statement came back

    method Await() returns (fails: bool)
      modifies this`now, this`failures, this`awaits
      ensures now >= old(now) && failures == old(failures) + if fails then 1 else 0
      ensures awaits == old(awaits) + [now]
    {
      var elapsed: nat, broke: bool :| true;
      now, fails := now + elapsed, broke;
      awaits := awaits + [now];
      if fails { failures := failures + 1; }
    }

    /** The update that moves a message, leased from the clock as read for it. */
    method MoveTo(id: nat, update: Update, target: MessageState) returns (took: Took, reckoned: int)
      requires id in messages && NextState(messages[id].state, update.outcome) == Some(target)
      requires target != messages[id].state
      modifies this`messages, this`now, this`failures, this`awaits
      ensures took == Ingested(id) || (took.Unmoved? && took.message == id)
      ensures messages == AfterOne(old(messages), update, Applied(took), reckoned)
      ensures failures == old(failures) + Broke(took) && reckoned == old(now) <= now && awaits == old(awaits) + [now]
    {
      var found := messages[id];
      reckoned := now;
      var lease := if target == Undelivered then Some(reckoned + RetryBackoff(found.attempts)) else found.leaseUntil;
      var fails := Await();
      var moved: bool :| true;
      if !fails || moved {
        messages := messages[id := found.(state := target, version := found.version + 1, leaseUntil := lease)];
      }
      took := if fails then Unmoved(id, moved) else Ingested(id);
    }

    /** One update: no match, nothing happens; a match leaves one receipt and the state it implies, leased from
        the clock as read once the receipt was in; a statement that fails leaves what had committed, and no
        more. It breaks exactly when a statement fails. */
    method IngestOne(providerId: string, update: Update) returns (took: Took, reckoned: int)
      modifies this
      ensures MatchOk(old(messages), providerId, update, took)
      ensures messages == AfterOne(old(messages), update, Applied(took), reckoned)
      ensures receipts == old(receipts) + Left(providerId, update, took)
      ensures failures == old(failures) + Broke(took)
      ensures old(now) <= reckoned <= now && old(awaits) <= awaits
      ensures |awaits| == |old(awaits)| + 3 ==> reckoned == awaits[|old(awaits)| + 1]
    {
      reckoned := now;
      var fails := Await();
      if fails { return Unread, reckoned; }
      if id :| id in messages && Matches(messages[id], providerId, update.providerRef) {
        var found, receipt := messages[id], Receipt(id, providerId, update.outcome);
        fails := Await();
        var left: bool :| true;
        if !fails || left { receipts := receipts + [receipt]; }
        if fails { return Unrecorded(id, left), reckoned; }
        var target := NextState(found.state, update.outcome);
        if target.None? || target.value == found.state { return Ingested(id), reckoned; }
        took, reckoned := MoveTo(id, update, target.value);
      } else {
        took := Unmatched;
      }
    }

    /** A whole callback: every update is attempted, whatever became of the ones before; each is applied to
        the row it names, or not, in order, and leaves the receipt it wrote. */
    method Ingest(providerId: string, updates: seq<Update>) returns (took: seq<Took>, times: seq<int>)
      modifies this
      ensures MatchedOk(old(messages), providerId, updates, took) && |times| == |updates|
      ensures messages == Replay(old(messages), updates, took, times)
      ensures receipts == old(receipts) + ReceiptsFor(providerId, updates, took)
      ensures failures == old(failures) + Breaks(took)
      ensures forall i :: 0 <= i < |times| ==> old(now) <= times[i] <= now
    {
      took, times := [], [];
      for i := 0 to |updates|
        invariant MatchedOk(old(messages), providerId, updates[..i], took) && |times| == i
        invariant messages == Replay(old(messages), updates[..i], took, times)
        invariant receipts == old(receipts) + ReceiptsFor(providerId, updates[..i], took)
        invariant failures == old(failures) + Breaks(took)
        invariant now >= old(now) && forall k :: 0 <= k < i ==> old(now) <= times[k] <= now
      {
        var one, reckoned := IngestOne(providerId, updates[i]);
        OneMoreTaken(old(messages), providerId, updates, i, took, times, one, reckoned);
        OneMoreBreak(took, one);
        took, times := took + [one], times + [reckoned];
      }
      assert updates[..|updates|] == updates;
    }
  }
}
