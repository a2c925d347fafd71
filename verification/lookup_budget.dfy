/**
 The hourly budget of delivery lookups (`claim_budget`, `settle`, `budgeted`, `budgeted_kinds`).

 Insert first, count after, own row included, no lock. `BudgetRace` is the protocol as separate
 atomic statements of any number of concurrent calls, any of which may fail; `LookupLedger` is the
 same code run one call at a time, against a plain sliding-window counter.

 Times are microseconds of one clock that never runs backwards. A call reads the clock when it
 starts; the database stamps `createdAt` when the row goes in, which is later.
 */
module LookupKeys {
  datatype KeyKind = MessageId | ClientRef | Msisdn
  datatype Asker = Person | App
  datatype Actor = Actor(sub: string, asker: Asker)
  datatype Outcome = Pending | Answered | OverBudget

  const BUDGETED_LOOKUPS_PER_HOUR := 60
  const HOUR := 3_600_000_000

  /** A number always counts; a client reference only for a person; a message id never. */
  predicate Budgeted(asker: Asker, kind: KeyKind)
  {
    match kind
    case Msisdn => true
    case ClientRef => asker.Person?
    case MessageId => false
  }

  /** The kinds the count filters on are the kinds that claim: neither side can drift. */
  function BudgetedKinds(asker: Asker): (kinds: seq<KeyKind>)
    ensures forall k :: k in kinds <==> Budgeted(asker, k)
  {
    match asker
    case Person => [Msisdn, ClientRef]
    case App => [Msisdn]
  }

  datatype Row = Row(actor: Actor, kind: KeyKind, outcome: Outcome, createdAt: int)

  /** The `where` of the count. */
  predicate Counts(row: Row, actor: Actor, since: int)
  {
    && row.actor == actor && row.kind in BudgetedKinds(actor.asker)
    && row.outcome != OverBudget && row.createdAt >= since
  }
}

module BudgetRace {
  import opened Sets
  import opened LookupKeys

  /** Where a lookup stands. `asked` is the clock when the call started. */
  datatype Call =
    | Claiming(actor: Actor, kind: KeyKind, asked: int)
    | Counting(actor: Actor, kind: KeyKind, asked: int, id: nat)
    | Refusing(actor: Actor, kind: KeyKind, asked: int, id: nat)
    | Reading(actor: Actor, kind: KeyKind, asked: int, id: nat)  // admitted: read, then settle `answered`
    | Plain(actor: Actor, kind: KeyKind, asked: int)             // not budgeted: one `answered` row
    | Told(actor: Actor, kind: KeyKind, asked: int, id: nat)     // answered; `id` is the row that accounts for it
    | Over(actor: Actor, kind: KeyKind, asked: int)              // refused, or failed

  /** `admitted` is a history variable: the rows whose call passed `claim_budget`. */
  datatype State = State(now: int, rows: map<nat, Row>, nextId: nat, calls: map<nat, Call>, admitted: set<nat>)

  datatype Event =
    | Tick(elapsed: nat)
    | Begin(call: nat, actor: Actor, kind: KeyKind)
    | Run(call: nat)
    | Break(call: nat, landed: bool)  // its statement errors; `landed`: the effect had committed

  function Counted(s: State, actor: Actor, since: int): set<nat>
  {
    set id | id in s.rows && Counts(s.rows[id], actor, since)
  }

  function Insert(s: State, call: Call, outcome: Outcome): State
  {
    s.(rows := s.rows[s.nextId := Row(call.actor, call.kind, outcome, s.now)], nextId := s.nextId + 1)
  }

  function Settle(s: State, id: nat, outcome: Outcome): State
  {
    if id in s.rows then s.(rows := s.rows[id := s.rows[id].(outcome := outcome)]) else s
  }

  function Move(s: State, c: nat, call: Call): State
  {
    s.(calls := s.calls[c := call])
  }

  function Finish(call: Call): Call { Over(call.actor, call.kind, call.asked) }

  function RunCall(s: State, c: nat): State
    requires c in s.calls
  {
    var call := s.calls[c];
    match call
    case Claiming(a, k, t) => Move(Insert(s, call, Pending), c, Counting(a, k, t, s.nextId))
    case Counting(a, k, t, id) =>
      if |Counted(s, a, t - HOUR)| > BUDGETED_LOOKUPS_PER_HOUR then Move(s, c, Refusing(a, k, t, id))
      else Move(s.(admitted := s.admitted + {id}), c, Reading(a, k, t, id))
    case Refusing(_, _, _, id) => Move(Settle(s, id, OverBudget), c, Finish(call))
    case Reading(a, k, t, id) => Move(Settle(s, id, Answered), c, Told(a, k, t, id))
    case Plain(a, k, t) => Move(Insert(s, call, Answered), c, Told(a, k, t, s.nextId))
    case _ => s
  }

  function BreakCall(s: State, c: nat, landed: bool): State
    requires c in s.calls
  {
    var call := s.calls[c];
    if call.Told? then s else
    var after :=
      if !landed then s
      else match call
        case Claiming(_, _, _) => Insert(s, call, Pending)
        case Refusing(_, _, _, id) => Settle(s, id, OverBudget)
        case Reading(_, _, _, id) => Settle(s, id, Answered)
        case Plain(_, _, _) => Insert(s, call, Answered)
        case _ => s;
    Move(after, c, Finish(call))
  }

  function Apply(s: State, e: Event): State
  {
    match e
    case Tick(d) => s.(now := s.now + d)
    case Begin(c, a, k) =>
      if c in s.calls then s
      else Move(s, c, if Budgeted(a.asker, k) then Claiming(a, k, s.now) else Plain(a, k, s.now))
    case Run(c) => if c in s.calls then RunCall(s, c) else s
    case Break(c, landed) => if c in s.calls then BreakCall(s, c, landed) else s
  }

  function Exec(s: State, es: seq<Event>): State
  {
    if es == [] then s else Apply(Exec(s, es[..|es| - 1]), es[|es| - 1])
  }

  /** Any table to begin with, and no call under way. */
  ghost predicate Start(s: State)
  {
    && s.calls == map[] && s.admitted == {}
    && (forall id :: id in s.rows ==> id < s.nextId && s.rows[id].createdAt <= s.now)
  }

  /** The admitted rows of one actor created in the hour from `from`, both ends included. */
  ghost function AdmittedIn(s: State, actor: Actor, from: int): set<nat>
  {
    set id | id in s.admitted && id in s.rows && s.rows[id].actor == actor
      && from <= s.rows[id].createdAt <= from + HOUR
  }

  ghost predicate HoldsRow(call: Call)
  {
    call.Counting? || call.Refusing? || call.Reading?
  }

  /** A call's own row: there, its own, stamped no earlier than the call started. */
  ghost predicate CallOk(s: State, call: Call)
  {
    && call.asked <= s.now
    && (call.Claiming? ==> Budgeted(call.actor.asker, call.kind))
    && (HoldsRow(call) ==>
          && call.id in s.rows && s.rows[call.id].actor == call.actor && s.rows[call.id].kind == call.kind
          && Budgeted(call.actor.asker, call.kind) && call.asked <= s.rows[call.id].createdAt
          && (call.id in s.admitted <==> call.Reading?)
          && (call.Counting? ==> s.rows[call.id].outcome == Pending))
    && (call.Plain? ==> !Budgeted(call.actor.asker, call.kind))
    && (call.Told? ==>
          && call.id in s.rows && s.rows[call.id].actor == call.actor && s.rows[call.id].kind == call.kind
          && s.rows[call.id].outcome == Answered && call.asked <= s.rows[call.id].createdAt
          && (Budgeted(call.actor.asker, call.kind) ==> call.id in s.admitted))
  }

  /** A row that is some call's own, while it runs and once it has been answered. */
  ghost predicate Owns(call: Call)
  {
    HoldsRow(call) || call.Told?
  }

  ghost predicate Separate(s: State)
  {
    forall c, d :: c in s.calls && d in s.calls && c != d && Owns(s.calls[c]) && Owns(s.calls[d]) ==>
      s.calls[c].id != s.calls[d].id
  }

  /** An admitted row is in the table for good and is never marked over budget. */
  ghost predicate AdmittedOk(s: State)
  {
    forall id :: id in s.admitted ==>
      id in s.rows && s.rows[id].outcome != OverBudget && Budgeted(s.rows[id].actor.asker, s.rows[id].kind)
  }

  ghost predicate Bounded(s: State)
  {
    forall actor, from :: |AdmittedIn(s, actor, from)| <= BUDGETED_LOOKUPS_PER_HOUR
  }

  ghost predicate Inv(s: State)
  {
    && (forall id :: id in s.rows ==> id < s.nextId && s.rows[id].createdAt <= s.now)
    && (forall c :: c in s.calls ==> CallOk(s, s.calls[c]))
    && Separate(s) && AdmittedOk(s) && Bounded(s)
  }

  /** The heart of it: an admitted row that falls in a span was counted together with every admitted
      row of that span, because the count reaches back an hour from before the row was stamped. */
  lemma AdmissionStaysBounded(s: State, c: nat)
    requires Inv(s) && c in s.calls && s.calls[c].Counting?
    requires |Counted(s, s.calls[c].actor, s.calls[c].asked - HOUR)| <= BUDGETED_LOOKUPS_PER_HOUR
    ensures Bounded(s.(admitted := s.admitted + {s.calls[c].id}))
  {
    var call := s.calls[c];
    assert CallOk(s, call);
    var t := s.(admitted := s.admitted + {call.id});
    forall actor, from ensures |AdmittedIn(t, actor, from)| <= BUDGETED_LOOKUPS_PER_HOUR {
      if call.id in AdmittedIn(t, actor, from) {
        SubsetIsSmaller(AdmittedIn(t, actor, from), Counted(s, call.actor, call.asked - HOUR));
      } else {
        assert AdmittedIn(t, actor, from) == AdmittedIn(s, actor, from);
      }
    }
  }

  /** A step that admits nothing and leaves actor and stamp of every row alone. */
  lemma NothingAdmitted(s: State, t: State)
    requires Bounded(s) && AdmittedOk(s) && t.admitted == s.admitted && s.rows.Keys <= t.rows.Keys
    requires forall id :: id in s.rows ==>
               t.rows[id].actor == s.rows[id].actor && t.rows[id].createdAt == s.rows[id].createdAt
    ensures Bounded(t)
  {
    forall actor, from ensures |AdmittedIn(t, actor, from)| <= BUDGETED_LOOKUPS_PER_HOUR {
      assert AdmittedIn(t, actor, from) == AdmittedIn(s, actor, from);
    }
  }

  /** A call whose row is left alone keeps what it knows. */
  lemma OthersKeep(s: State, t: State, call: Call)
    requires CallOk(s, call) && s.now <= t.now
    requires Owns(call) ==>
               && call.id in t.rows && t.rows[call.id] == s.rows[call.id]
               && (call.id in t.admitted <==> call.id in s.admitted)
    ensures CallOk(t, call)
  {
  }

  lemma RunKeepsOwn(s: State, c: nat)
    requires Inv(s) && c in s.calls
    ensures CallOk(RunCall(s, c), RunCall(s, c).calls[c])
  {
    assert CallOk(s, s.calls[c]);
  }

  /** A call whose row nobody else holds is not disturbed by a step of another. */
  lemma RunKeepsCall(s: State, c: nat, d: nat)
    requires Inv(s) && c in s.calls && d in s.calls
    ensures CallOk(RunCall(s, c), RunCall(s, c).calls[d])
  {
    if c == d {
      RunKeepsOwn(s, c);
    } else {
      assert CallOk(s, s.calls[c]) && CallOk(s, s.calls[d]);
      OthersKeep(s, RunCall(s, c), s.calls[d]);
    }
  }

  lemma BreakKeepsCall(s: State, c: nat, landed: bool, d: nat)
    requires Inv(s) && c in s.calls && d in s.calls
    ensures CallOk(BreakCall(s, c, landed), BreakCall(s, c, landed).calls[d])
  {
  }

  /** The row a call comes to hold is its own already, or is new. */
  lemma RunKeepsSeparate(s: State, c: nat)
    requires Inv(s) && c in s.calls
    ensures Separate(RunCall(s, c)) && AdmittedOk(RunCall(s, c))
  {
  }

  lemma RunKeepsRest(s: State, c: nat)
    requires Inv(s) && c in s.calls
    ensures var t := RunCall(s, c);
            && (forall d :: d in t.calls ==> CallOk(t, t.calls[d])) && Separate(t) && AdmittedOk(t)
  {
    var t := RunCall(s, c);
    RunKeepsSeparate(s, c);
    forall d | d in t.calls ensures CallOk(t, t.calls[d]) { RunKeepsCall(s, c, d); }
  }

  lemma BreakKeepsRows(s: State, c: nat, landed: bool)
    requires Inv(s) && c in s.calls
    ensures var t := BreakCall(s, c, landed);
            && (forall id :: id in t.rows ==> id < t.nextId && t.rows[id].createdAt <= t.now)
            && Separate(t) && AdmittedOk(t)
  {
    assert CallOk(s, s.calls[c]);
    BreakKeepsSeparate(s, c, landed);
  }

  lemma BreakKeepsSeparate(s: State, c: nat, landed: bool)
    requires Inv(s) && c in s.calls
    ensures Separate(BreakCall(s, c, landed))
  {
  }

  lemma BreakKeepsInv(s: State, c: nat, landed: bool)
    requires Inv(s) && c in s.calls
    ensures Inv(BreakCall(s, c, landed))
  {
    var t := BreakCall(s, c, landed);
    BreakKeepsRows(s, c, landed);
    forall d | d in t.calls ensures CallOk(t, t.calls[d]) { BreakKeepsCall(s, c, landed, d); }
    NothingAdmitted(s, t);
  }

  lemma RunStaysBounded(s: State, c: nat)
    requires Inv(s) && c in s.calls
    ensures Bounded(RunCall(s, c))
  {
    var t := RunCall(s, c);
    var call := s.calls[c];
    assert CallOk(s, call);
    if call.Counting? && |Counted(s, call.actor, call.asked - HOUR)| <= BUDGETED_LOOKUPS_PER_HOUR {
      AdmissionStaysBounded(s, c);
      var admitting := s.(admitted := s.admitted + {call.id});
      forall actor, from ensures |AdmittedIn(t, actor, from)| <= BUDGETED_LOOKUPS_PER_HOUR {
        assert AdmittedIn(t, actor, from) == AdmittedIn(admitting, actor, from);
      }
    } else {
      NothingAdmitted(s, t);
    }
  }

  lemma StepKeepsInv(s: State, e: Event)
    requires Inv(s)
    ensures Inv(Apply(s, e))
  {
    match e
    case Run(c) =>
      if c in s.calls {
        RunKeepsRest(s, c);
        RunStaysBounded(s, c);
      }
    case Break(c, landed) => if c in s.calls { BreakKeepsInv(s, c, landed); }
    case _ => OtherKeepsInv(s, e);
  }

  lemma OtherKeepsInv(s: State, e: Event)
    requires Inv(s) && (e.Tick? || e.Begin?)
    ensures Inv(Apply(s, e))
  {
    var t := Apply(s, e);
    assert t.rows == s.rows && t.admitted == s.admitted && t.nextId == s.nextId && s.now <= t.now;
    NothingAdmitted(s, t);
    assert Separate(t);
    forall d | d in t.calls ensures CallOk(t, t.calls[d]) {
      if d in s.calls {
        assert CallOk(s, s.calls[d]);
        OthersKeep(s, t, s.calls[d]);
      }
    }
  }

  lemma {:induction false} RunKeepsInv(s: State, es: seq<Event>)
    requires Start(s)
    ensures Inv(Exec(s, es))
  {
    if es == [] {
      assert forall actor, from :: AdmittedIn(s, actor, from) == {};
    } else {
      RunKeepsInv(s, es[..|es| - 1]);
      StepKeepsInv(Exec(s, es[..|es| - 1]), es[|es| - 1]);
    }
  }

  /** However many lookups run at once and whichever of their statements fail, no more than 60 rows of
      one caller stamped inside any one hour are ever admitted. */
  lemma NeverMoreThanTheBudget(s: State, es: seq<Event>, actor: Actor, from: int)
    requires Start(s)
    ensures |AdmittedIn(Exec(s, es), actor, from)| <= 60
  {
    RunKeepsInv(s, es);
  }

  /** A lookup that cannot be accounted for is not answered: every answer has a row of its own, settled
      `answered`, naming its caller and its kind of key, and, when it is budgeted, one that was admitted. */
  lemma EveryAnswerIsAccountedFor(s: State, es: seq<Event>, c: nat, d: nat)
    requires Start(s) && c in Exec(s, es).calls && Exec(s, es).calls[c].Told?
    ensures var t := Exec(s, es);
            var call := t.calls[c];
            && call.id in t.rows && t.rows[call.id].actor == call.actor && t.rows[call.id].kind == call.kind
            && t.rows[call.id].outcome == Answered
            && (Budgeted(call.actor.asker, call.kind) ==> call.id in t.admitted)
            && (d in t.calls && d != c && t.calls[d].Told? ==> t.calls[d].id != call.id)
  {
    RunKeepsInv(s, es);
    assert CallOk(Exec(s, es), Exec(s, es).calls[c]);
  }

  /** A lookup by number, whoever asks, and a person's lookup by reference are answered from an admitted row
      only. One by message id, and an app's by its own reference, never claims, is never counted or refused. */
  lemma WhatIsBudgeted(s: State, es: seq<Event>, c: nat)
    requires Start(s) && c in Exec(s, es).calls
    ensures var t := Exec(s, es);
            var call := t.calls[c];
            && (call.kind == Msisdn || (call.kind == ClientRef && call.actor.asker == Person) ==>
                  !call.Plain? && (call.Told? ==> call.id in t.admitted))
            && (call.kind == MessageId || (call.kind == ClientRef && call.actor.asker == App) ==>
                  call.Plain? || call.Told? || call.Over?)
  {
    RunKeepsInv(s, es);
    assert CallOk(Exec(s, es), Exec(s, es).calls[c]);
  }

  /** How many statements a call still has. */
  function Left(call: Call): nat
  {
    match call
    case Claiming(_, _, _) => 3
    case Counting(_, _, _, _) => 2
    case Refusing(_, _, _, _) => 1
    case Reading(_, _, _, _) => 1
    case Plain(_, _, _) => 1
    case _ => 0
  }

  /** Nobody waits for anybody: every statement takes a call nearer its end, three at most; one that is not
      budgeted is answered by its first. */
  lemma EveryStatementAdvances(s: State, c: nat)
    requires c in s.calls && Left(s.calls[c]) > 0
    ensures var (call, after) := (s.calls[c], RunCall(s, c).calls);
            && c in after && Left(after[c]) < Left(call) <= 3
            && (call.Plain? || call.Reading? ==> after[c].Told?)
  {
  }

  /** The caller's rows of the hour up to now that are not refusals: by number, or by reference of a person. */
  ghost function Used(rows: map<nat, Row>, now: int, actor: Actor): set<nat>
  {
    set id | id in rows && rows[id].actor == actor && rows[id].createdAt >= now - HOUR
             && rows[id].outcome != OverBudget
             && (rows[id].kind == Msisdn || (rows[id].kind == ClientRef && actor.asker == Person))
  }

  lemma CountedIsUsed(s: State, actor: Actor)
    ensures Counted(s, actor, s.now - HOUR) == Used(s.rows, s.now, actor)
  {
  }

  lemma OneMoreRow(rows: map<nat, Row>, id: nat, row: Row)
    requires id !in rows && row.kind == Msisdn
    ensures var used := Used(rows[id := row], row.createdAt, row.actor);
            used == Used(rows, row.createdAt, row.actor) + if row.outcome == OverBudget then {} else {id}
  {
  }

  /** The state after a claim. */
  function Claimed(s: State, c: nat, actor: Actor): State
  {
    s.(rows := s.rows[s.nextId := Row(actor, Msisdn, Pending, s.now)], nextId := s.nextId + 1,
       calls := s.calls[c := Counting(actor, Msisdn, s.now, s.nextId)])
  }

  lemma OwnRowIsCounted(s: State, c: nat, actor: Actor)
    requires s.nextId !in s.rows
    ensures |Counted(Claimed(s, c, actor), actor, s.now - HOUR)| == |Used(s.rows, s.now, actor)| + 1
  {
    var used := Used(s.rows, s.now, actor);
    assert Counted(Claimed(s, c, actor), actor, s.now - HOUR) == used + {s.nextId} by {
      OneMoreRow(s.rows, s.nextId, Row(actor, Msisdn, Pending, s.now));
      CountedIsUsed(Claimed(s, c, actor), actor);
    }
    assert s.nextId !in used;
  }

  /** A lookup by number and nothing else. */
  function Alone(c: nat, actor: Actor): seq<Event> { [Begin(c, actor, Msisdn), Run(c), Run(c), Run(c)] }

  lemma AloneIs(s: State, c: nat, actor: Actor)
    requires c !in s.calls
    ensures Exec(s, Alone(c, actor)) == Apply(Apply(Claimed(s, c, actor), Run(c)), Run(c))
  {
    var es := Alone(c, actor);
    assert es[..3][..2] == es[..2] && es[..2][..1] == es[..1] && es[..1][..0] == [];
    assert Exec(s, es[..1]) == Apply(s, es[0]);
    assert Exec(s, es[..2]) == Apply(Apply(s, es[0]), es[1]) == Claimed(s, c, actor);
    assert Exec(s, es[..3]) == Apply(Exec(s, es[..2]), es[2]);
  }

  lemma Settles(s: State, c: nat, actor: Actor)
    requires c !in s.calls
    ensures var admitted := |Counted(Claimed(s, c, actor), actor, s.now - HOUR)| <= BUDGETED_LOOKUPS_PER_HOUR;
            var t := Exec(s, Alone(c, actor));
            && t.rows == s.rows[s.nextId := Row(actor, Msisdn, if admitted then Answered else OverBudget, s.now)]
            && c in t.calls
            && t.calls[c] == if admitted then Told(actor, Msisdn, s.now, s.nextId) else Over(actor, Msisdn, s.now)
  {
    AloneIs(s, c, actor);
  }

  /** Wherever ids are not reused, which is at every moment of every run: a lookup by number that nobody disturbs
      is answered exactly when the caller has used fewer than 60 of its hour; refused, its row says so and is
      not used up. */
  lemma UndisturbedLookup(s: State, c: nat, actor: Actor)
    requires s.nextId !in s.rows && c !in s.calls
    ensures var t := Exec(s, Alone(c, actor));
            var admitted := |Used(s.rows, s.now, actor)| < 60;
            && t.rows == s.rows[s.nextId := Row(actor, Msisdn, if admitted then Answered else OverBudget, s.now)]
            && Used(t.rows, s.now, actor) == Used(s.rows, s.now, actor) + (if admitted then {s.nextId} else {})
            && c in t.calls
            && t.calls[c] == if admitted then Told(actor, Msisdn, s.now, s.nextId) else Over(actor, Msisdn, s.now)
  {
    OwnRowIsCounted(s, c, actor);
    Settles(s, c, actor);
    OneMoreRow(s.rows, s.nextId, Row(actor, Msisdn, Answered, s.now));
    OneMoreRow(s.rows, s.nextId, Row(actor, Msisdn, OverBudget, s.now));
  }

  /** One answer of the hour from `from` to this caller, by number or by a person's reference. */
  ghost predicate AnsweredIn(t: State, c: nat, actor: Actor, from: int)
  {
    && c in t.calls && t.calls[c].Told? && t.calls[c].actor == actor
    && (t.calls[c].kind == Msisdn || (t.calls[c].kind == ClientRef && actor.asker == Person))
    && t.calls[c].id in t.rows && from <= t.rows[t.calls[c].id].createdAt <= from + 3_600_000_000
  }

  /** So no caller is answered more than 60 of them in any hour, however many it has under way at once. */
  lemma AnswersStayInBudget(s: State, es: seq<Event>, actor: Actor, from: int, answered: set<nat>)
    requires Start(s) && forall c :: c in answered ==> AnsweredIn(Exec(s, es), c, actor, from)
    ensures |answered| <= 60
  {
    var t := Exec(s, es);
    var row := (c: nat) => if c in t.calls && t.calls[c].Told? then t.calls[c].id else 0;
    forall c | c in answered ensures row(c) in AdmittedIn(t, actor, from) {
      EveryAnswerIsAccountedFor(s, es, c, c);
      WhatIsBudgeted(s, es, c);
    }
    forall c, d | c in answered && d in answered && row(c) == row(d) ensures c == d {
      EveryAnswerIsAccountedFor(s, es, c, d);
    }
    NeverMoreThanTheBudget(s, es, actor, from);
    InjectionIsSmaller(answered, AdmittedIn(t, actor, from), row);
  }
}

/** The same code, one call at a time and nothing failing. */
module LookupLedger {
  import opened LookupKeys

  /** One budgeted lookup: when it asked, and when its row was stamped. */
  datatype Attempt = Attempt(actor: Actor, kind: KeyKind, asked: int, stamped: int)

  function CountRows(rows: seq<Row>, actor: Actor, since: int): nat
  {
    if rows == [] then 0
    else CountRows(rows[..|rows| - 1], actor, since) + if Counts(rows[|rows| - 1], actor, since) then 1 else 0
  }

  lemma CountSnoc(rows: seq<Row>, row: Row, actor: Actor, since: int)
    ensures CountRows(rows + [row], actor, since) ==
            CountRows(rows, actor, since) + if Counts(row, actor, since) then 1 else 0
  {
  }

  // ----- the reference: a plain sliding-window counter -----

  /** The admitted attempts of `actor` stamped since `since`. */
  function InWindow(log: seq<Attempt>, actor: Actor, since: int): nat
  {
    if log == [] then 0
    else
      var last := log[|log| - 1];
      InWindow(log[..|log| - 1], actor, since) + if last.actor == actor && last.stamped >= since then 1 else 0
  }

  predicate WindowAdmits(log: seq<Attempt>, a: Attempt)
  {
    InWindow(log, a.actor, a.asked - HOUR) < BUDGETED_LOOKUPS_PER_HOUR
  }

  function WindowLog(attempts: seq<Attempt>): seq<Attempt>
  {
    if attempts == [] then []
    else
      var log, a := WindowLog(attempts[..|attempts| - 1]), attempts[|attempts| - 1];
      if WindowAdmits(log, a) then log + [a] else log
  }

  /** Decision `i` of the counter: what it says after the attempts before it. */
  predicate WindowDecision(attempts: seq<Attempt>, i: nat)
    requires i < |attempts|
  {
    WindowAdmits(WindowLog(attempts[..i]), attempts[i])
  }

  /** The first `n` decisions of the counter. */
  function Decisions(attempts: seq<Attempt>, n: nat): (decisions: seq<bool>)
    requires n <= |attempts|
    ensures |decisions| == n
  {
    if n == 0 then [] else Decisions(attempts, n - 1) + [WindowDecision(attempts, n - 1)]
  }

  lemma {:induction false} DecisionsAreTheCounters(attempts: seq<Attempt>, n: nat, k: nat)
    requires k < n <= |attempts|
    ensures Decisions(attempts, n)[k] == WindowDecision(attempts, k)
  {
    if k < n - 1 { DecisionsAreTheCounters(attempts, n - 1, k); }
  }

  lemma WindowLogSnoc(attempts: seq<Attempt>, i: nat)
    requires i < |attempts|
    ensures WindowLog(attempts[..i + 1]) ==
            if WindowDecision(attempts, i) then WindowLog(attempts[..i]) + [attempts[i]] else WindowLog(attempts[..i])
  {
    var seen := attempts[..i + 1];
    assert seen[..|seen| - 1] == attempts[..i] && seen[|seen| - 1] == attempts[i];
  }

  predicate Sensible(a: Attempt)
  {
    Budgeted(a.actor.asker, a.kind) && a.asked <= a.stamped
  }

  class Ledger {
    var rows: seq<Row>
    ghost var log: seq<Attempt>  // the counter this table stands for

    ghost predicate Valid()
      reads this
    {
      forall actor, since :: CountRows(rows, actor, since) == InWindow(log, actor, since)
    }

    constructor ()
      ensures Valid() && rows == [] && log == []
    {
      rows, log := [], [];
    }

    /** Insert pending, count own row included, settle. The answer is the counter's, and a refusal
        leaves the counter as it was. */
    method Lookup(a: Attempt) returns (admitted: bool)
      requires Valid() && Sensible(a)
      modifies this
      ensures Valid() && admitted == WindowAdmits(old(log), a)
      ensures log == if admitted then old(log) + [a] else old(log)
      ensures rows == old(rows) + [Row(a.actor, a.kind, if admitted then Answered else OverBudget, a.stamped)]
    {
      var pending := Row(a.actor, a.kind, Pending, a.stamped);
      CountSnoc(rows, pending, a.actor, a.asked - HOUR);
      rows := rows + [pending];
      var used := CountRows(rows, a.actor, a.asked - HOUR);
      admitted := used <= BUDGETED_LOOKUPS_PER_HOUR;
      rows := rows[|rows| - 1 := pending.(outcome := if admitted then Answered else OverBudget)];
      var settled := rows[|rows| - 1];
      assert rows == old(rows) + [settled];
      if admitted { log := log + [a]; }
      forall actor, since ensures CountRows(rows, actor, since) == InWindow(log, actor, since) {
        CountSnoc(old(rows), settled, actor, since);
        if admitted { assert log[..|log| - 1] == old(log); }
      }
    }
  }

  /** A whole history of lookups is decided exactly as the sliding-window counter decides it, however
      many refusals came before. */
  method Serve(attempts: seq<Attempt>) returns (decisions: seq<bool>)
    requires forall i :: 0 <= i < |attempts| ==> Sensible(attempts[i])
    ensures |decisions| == |attempts|
    ensures forall i :: 0 <= i < |attempts| ==> decisions[i] == WindowDecision(attempts, i)
  {
    var ledger := new Ledger();
    decisions := [];
    for i := 0 to |attempts|
      invariant fresh(ledger) && ledger.Valid() && ledger.log == WindowLog(attempts[..i])
      invariant decisions == Decisions(attempts, i)
    {
      WindowLogSnoc(attempts, i);
      var admitted := ledger.Lookup(attempts[i]);
      decisions := decisions + [admitted];
    }
    forall k | 0 <= k < |attempts| ensures decisions[k] == WindowDecision(attempts, k) {
      DecisionsAreTheCounters(attempts, |attempts|, k);
    }
  }
}
