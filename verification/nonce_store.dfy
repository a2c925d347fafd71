/**
 The replay cache over the `EnvelopeNonce` table.

 A call of `record_if_unseen` is a sequence of separately committed statements; between any two of
 them other replicas and the sweeper may act. `NonceRace` is that protocol as a step function over
 events: an event whose guard is false leaves the state alone, so every list of events is an
 interleaving and every interleaving is a list of events.

 Environment assumed: one clock that never runs backwards, atomic statements, an enforced unique
 index on the nonce, row ids that are never reused, and a sweeper that deletes expired rows only.
 */
module NonceTables {
  datatype Row = Row(nonce: string, expiresAt: int)

  datatype Table = Table(rows: map<nat, Row>, nextId: nat)

  predicate Holds(t: Table, nonce: string)
  {
    exists id :: id in t.rows && t.rows[id].nonce == nonce
  }

  /** A row the layer must still refuse a replay for. */
  predicate HoldsLive(t: Table, nonce: string, now: int)
  {
    exists id :: id in t.rows && t.rows[id].nonce == nonce && t.rows[id].expiresAt > now
  }

  /** What the unique index and the id generator guarantee. */
  ghost predicate Sound(t: Table)
  {
    && (forall id :: id in t.rows ==> id < t.nextId)
    && (forall a, b :: a in t.rows && b in t.rows && t.rows[a].nonce == t.rows[b].nonce ==> a == b)
  }

  /** The insert, which the unique index refuses while the nonce is held. */
  function Insert(t: Table, nonce: string, expiresAt: int): (r: Table)
    ensures Sound(t) ==> Sound(r)
  {
    if Holds(t, nonce) then t else Table(t.rows[t.nextId := Row(nonce, expiresAt)], t.nextId + 1)
  }

  function Delete(t: Table, id: nat): (r: Table)
    ensures Sound(t) ==> Sound(r)
  {
    t.(rows := t.rows - {id})
  }

  /** How a table may change while nobody breaks the rules: an old row stays as it was or is gone
      because it expired, and a row that is new has an id nobody used before. */
  ghost predicate Evolves(a: Table, b: Table, now: int)
  {
    && a.nextId <= b.nextId
    && (forall id :: id in a.rows && a.rows[id].expiresAt > now ==> id in b.rows)
    && (forall id :: id in b.rows && id < a.nextId ==> id in a.rows && b.rows[id] == a.rows[id])
  }

  lemma EvolvesOn(a: Table, b: Table, c: Table, t: int, u: int)
    requires Sound(a) && Evolves(a, b, t) && Evolves(b, c, u) && t <= u
    ensures Evolves(a, c, u)
  {
  }
}

module NonceRace {
  import opened NonceTables

  datatype Verdict =
    | Fresh   // Ok(true)
    | Seen    // Ok(false)
    | Failed  // Err

  /** Where one call of `record_if_unseen` stands: the statement it runs next. */
  datatype Call =
    | Inserting(nonce: string, expiresAt: int)
    | Finding(nonce: string, expiresAt: int)
    | Judging(nonce: string, expiresAt: int, id: nat, seenExpiry: int)
    | Deleting(nonce: string, expiresAt: int, id: nat)
    | Retrying(nonce: string, expiresAt: int)
    | Returned(nonce: string, expiresAt: int, verdict: Verdict)

  /** One `Ok(true)`: who was told, about which row, and when. */
  datatype Acceptance = Acceptance(call: nat, id: nat, nonce: string, expiresAt: int, at: int)

  /** `accepted` is a history variable: every `Ok(true)` so far, oldest first. */
  datatype State = State(now: int, table: Table, calls: map<nat, Call>, accepted: seq<Acceptance>)

  datatype Event =
    | Tick(elapsed: nat)
    | Begin(call: nat, nonce: string, expiresAt: int)
    | Run(call: nat)                  // the call's next statement succeeds (a duplicate key included)
    | Break(call: nat, landed: bool)  // it errors; `landed` says whether its effect had committed
    | Sweep(id: nat)

  /** The delete the code issues is by row id. `ByNonce` is the variant the design avoids. */
  datatype DeleteKey = ById | ByNonce

  ghost function RowOf(t: Table, nonce: string): (id: nat)
    requires Holds(t, nonce)
    ensures id in t.rows && t.rows[id].nonce == nonce
  {
    var id :| id in t.rows && t.rows[id].nonce == nonce; id
  }

  function Return(s: State, c: nat, verdict: Verdict): State
    requires c in s.calls
  {
    s.(calls := s.calls[c := Returned(s.calls[c].nonce, s.calls[c].expiresAt, verdict)])
  }

  /** Call `c` was told `Ok(true)`: its row is in, and the log says so. */
  function Accept(s: State, c: nat): State
    requires c in s.calls
  {
    var call := s.calls[c];
    Return(s.(table := Insert(s.table, call.nonce, call.expiresAt),
              accepted := s.accepted + [Acceptance(c, s.table.nextId, call.nonce, call.expiresAt, s.now)]), c, Fresh)
  }

  /** The insert of call `c`: `Ok(true)` when it lands, otherwise on to `loser`. */
  function TryInsert(s: State, c: nat, loser: Call): State
    requires c in s.calls
  {
    if Holds(s.table, s.calls[c].nonce) then s.(calls := s.calls[c := loser]) else Accept(s, c)
  }

  function DeleteFor(t: Table, key: DeleteKey, id: nat, nonce: string): Table
  {
    match key
    case ById => Delete(t, id)
    case ByNonce => t.(rows := map i | i in t.rows && t.rows[i].nonce != nonce :: t.rows[i])
  }

  ghost function RunCall(s: State, c: nat, key: DeleteKey): State
    requires c in s.calls
  {
    match s.calls[c]
    case Inserting(n, e) => TryInsert(s, c, Finding(n, e))
    case Finding(n, e) =>
      if Holds(s.table, n) then
        var id := RowOf(s.table, n);
        s.(calls := s.calls[c := Judging(n, e, id, s.table.rows[id].expiresAt)])
      else
        s.(calls := s.calls[c := Retrying(n, e)])
    case Judging(n, e, id, seenExpiry) =>
      if seenExpiry > s.now then Return(s, c, Seen)
      else s.(calls := s.calls[c := Deleting(n, e, id)])
    case Deleting(n, e, id) =>
      s.(table := DeleteFor(s.table, key, id, n), calls := s.calls[c := Retrying(n, e)])
    case Retrying(n, e) => TryInsert(s, c, Returned(n, e, Seen))
    case Returned(_, _, _) => s
  }

  /** The statement of call `c` reports an error. Its effect may have committed all the same. */
  function BreakCall(s: State, c: nat, landed: bool): State
    requires c in s.calls
  {
    var call := s.calls[c];
    match call
    case Returned(_, _, _) => s
    case Inserting(n, e) =>
      Return(if landed then s.(table := Insert(s.table, n, e)) else s, c, Failed)
    case Retrying(n, e) =>
      Return(if landed then s.(table := Insert(s.table, n, e)) else s, c, Failed)
    case Deleting(n, e, id) =>
      Return(if landed then s.(table := Delete(s.table, id)) else s, c, Failed)
    case _ => Return(s, c, Failed)
  }

  ghost function Apply(s: State, e: Event, key: DeleteKey): State
  {
    match e
    case Tick(d) => s.(now := s.now + d)
    case Begin(c, n, x) => if c in s.calls then s else s.(calls := s.calls[c := Inserting(n, x)])
    case Run(c) => if c in s.calls then RunCall(s, c, key) else s
    case Break(c, landed) => if c in s.calls then BreakCall(s, c, landed) else s
    case Sweep(id) =>
      if id in s.table.rows && s.table.rows[id].expiresAt < s.now
      then s.(table := Delete(s.table, id)) else s
  }

  ghost function Exec(s: State, es: seq<Event>, key: DeleteKey): State
  {
    if es == [] then s else Apply(Exec(s, es[..|es| - 1], key), es[|es| - 1], key)
  }

  ghost predicate Start(s: State)
  {
    Sound(s.table) && s.accepted == [] && forall c :: c in s.calls ==> s.calls[c].Inserting?
  }

  /** The row of acceptance `a` is still there, or its lifetime is over. */
  ghost predicate Backed(s: State, a: Acceptance)
  {
    && a.id < s.table.nextId
    && a.at <= s.now
    && ((a.id in s.table.rows && s.table.rows[a.id] == Row(a.nonce, a.expiresAt)) || a.expiresAt <= s.now)
  }

  ghost predicate CallOk(s: State, call: Call)
  {
    match call
    case Judging(n, _, id, x) =>
      id < s.table.nextId && (id in s.table.rows ==> s.table.rows[id] == Row(n, x))
    case Deleting(_, _, id) =>
      id < s.table.nextId && (id in s.table.rows ==> s.table.rows[id].expiresAt <= s.now)
    case _ => true
  }

  /** A later acceptance of a nonce comes at or after the expiry of every earlier one. */
  ghost predicate Spaced(log: seq<Acceptance>)
  {
    forall i, j :: 0 <= i < j < |log| && log[i].nonce == log[j].nonce ==> log[j].at >= log[i].expiresAt
  }

  /** The log is exactly the calls that were told `Ok(true)`, each once. */
  ghost predicate Logged(s: State)
  {
    && (forall k :: 0 <= k < |s.accepted| ==>
          && s.accepted[k].call in s.calls
          && s.calls[s.accepted[k].call] == Returned(s.accepted[k].nonce, s.accepted[k].expiresAt, Fresh))
    && (forall i, j :: 0 <= i < j < |s.accepted| ==> s.accepted[i].call != s.accepted[j].call)
    && (forall c :: c in s.calls && s.calls[c].Returned? && s.calls[c].verdict.Fresh? ==>
          exists k :: 0 <= k < |s.accepted| && s.accepted[k].call == c)
  }

  ghost predicate CallsOk(s: State)
  {
    forall c :: c in s.calls ==> CallOk(s, s.calls[c])
  }

  ghost predicate AllBacked(s: State)
  {
    forall k :: 0 <= k < |s.accepted| ==> Backed(s, s.accepted[k])
  }

  ghost predicate Inv(s: State)
  {
    && Sound(s.table)
    && CallsOk(s) && AllBacked(s)
    && Spaced(s.accepted)
    && Logged(s)
  }

  /** Only calls and the table move, no row is accepted, and no live row goes away. */
  lemma QuietStepKeepsInv(s: State, t: State)
    requires Inv(s) && t.accepted == s.accepted && t.now >= s.now
    requires Sound(t.table) && Evolves(s.table, t.table, s.now)
    requires s.calls.Keys <= t.calls.Keys
    requires forall c :: c in t.calls && (c !in s.calls || t.calls[c] != s.calls[c]) ==>
               CallOk(t, t.calls[c]) && (t.calls[c].Returned? ==> !t.calls[c].verdict.Fresh?)
    requires forall c :: c in s.calls && s.calls[c].Returned? ==> t.calls[c] == s.calls[c]
    ensures Inv(t)
  {
  }

  lemma AcceptKeepsLogged(s: State, c: nat)
    requires Logged(s) && c in s.calls && !s.calls[c].Returned?
    ensures Logged(Accept(s, c))
  {
    var (t, n) := (Accept(s, c), |s.accepted|);
    forall d | d in t.calls && t.calls[d].Returned? && t.calls[d].verdict.Fresh?
      ensures exists k :: 0 <= k < |t.accepted| && t.accepted[k].call == d
    {
      if d == c {
        assert t.accepted[n].call == c;
      } else {
        var k :| 0 <= k < n && s.accepted[k].call == d;
        assert t.accepted[k].call == d;
      }
    }
  }

  lemma AcceptKeepsSpaced(s: State, c: nat)
    requires Sound(s.table) && AllBacked(s) && Spaced(s.accepted) && c in s.calls && !Holds(s.table, s.calls[c].nonce)
    ensures Spaced(Accept(s, c).accepted)
  {
  }

  lemma AcceptKeepsBacked(s: State, c: nat)
    requires Sound(s.table) && AllBacked(s) && c in s.calls && !Holds(s.table, s.calls[c].nonce)
    ensures Sound(Accept(s, c).table) && AllBacked(Accept(s, c))
  {
  }

  lemma AcceptKeepsCalls(s: State, c: nat)
    requires Sound(s.table) && CallsOk(s) && c in s.calls
    ensures CallsOk(Accept(s, c))
  {
  }

  lemma TryInsertKeepsInv(s: State, c: nat, loser: Call)
    requires Inv(s) && c in s.calls && !s.calls[c].Returned?
    requires CallOk(s, loser) && (loser.Returned? ==> loser.verdict == Seen)
    ensures Inv(TryInsert(s, c, loser))
  {
    if Holds(s.table, s.calls[c].nonce) {
      QuietStepKeepsInv(s, TryInsert(s, c, loser));
    } else {
      AcceptKeepsLogged(s, c);
      AcceptKeepsSpaced(s, c);
      AcceptKeepsBacked(s, c);
      AcceptKeepsCalls(s, c);
    }
  }

  lemma RunCallKeepsInv(s: State, c: nat)
    requires Inv(s) && c in s.calls
    ensures Inv(RunCall(s, c, ById))
  {
    assert CallOk(s, s.calls[c]);
    match s.calls[c]
    case Inserting(n, x) => TryInsertKeepsInv(s, c, Finding(n, x));
    case Retrying(n, x) => TryInsertKeepsInv(s, c, Returned(n, x, Seen));
    case Returned(_, _, _) =>
    case _ => QuietStepKeepsInv(s, RunCall(s, c, ById));
  }

  lemma BreakCallKeepsInv(s: State, c: nat, landed: bool)
    requires Inv(s) && c in s.calls
    ensures Inv(BreakCall(s, c, landed))
  {
    assert CallOk(s, s.calls[c]);
    QuietStepKeepsInv(s, BreakCall(s, c, landed));
  }

  lemma StepKeepsInv(s: State, e: Event)
    requires Inv(s)
    ensures Inv(Apply(s, e, ById))
  {
    match e
    case Run(c) => if c in s.calls { RunCallKeepsInv(s, c); }
    case Break(c, landed) => if c in s.calls { BreakCallKeepsInv(s, c, landed); }
    case _ => QuietStepKeepsInv(s, Apply(s, e, ById));
  }

  lemma {:induction false} RunKeepsInv(s: State, es: seq<Event>)
    requires Start(s)
    ensures Inv(Exec(s, es, ById))
  {
    if es == [] {
    } else {
      RunKeepsInv(s, es[..|es| - 1]);
      StepKeepsInv(Exec(s, es[..|es| - 1], ById), es[|es| - 1]);
    }
  }

  /** Single acceptance per lifetime. In every interleaving a later `Ok(true)` for a nonce comes at
      or after the expiry of the row each earlier `Ok(true)` inserted, and the log that says so holds
      exactly the calls that returned `Ok(true)`. */
  lemma SingleAcceptance(s: State, es: seq<Event>)
    requires Start(s)
    ensures var t := Exec(s, es, ById); Spaced(t.accepted) && Logged(t)
  {
    RunKeepsInv(s, es);
  }

  // ----- exactly one winner -----

  ghost predicate NoLiveRow(s: State, nonce: string)
  {
    !HoldsLive(s.table, nonce, s.now)
  }

  /** The events of a race on `nonce` between `racers`: nobody else asks for the nonce and no
      statement of a racer errors. Calls on other nonces, time and the sweeper are free. */
  ghost predicate Fair(es: seq<Event>, nonce: string, racers: set<nat>)
  {
    forall e :: e in es ==>
      && (e.Begin? ==> e.nonce != nonce)
      && (e.Break? ==> e.call !in racers)
  }

  ghost predicate Racing(s: State, nonce: string, racers: set<nat>)
  {
    && racers <= s.calls.Keys
    && (forall c :: c in s.calls ==> (s.calls[c].nonce == nonce <==> c in racers))
  }

  ghost predicate Won(s: State, c: nat)
  {
    c in s.calls && s.calls[c].Returned? && s.calls[c].verdict.Fresh?
  }

  /** While nobody has won, no racer has been refused, the only row the nonce can still have is the
      stale one every racer that saw a row saw, and a racer about to retry saw it go. */
  ghost predicate Open(s: State, nonce: string, racers: set<nat>, stale: int)
  {
    && Racing(s, nonce, racers)
    && stale < s.table.nextId
    && ((exists c :: c in racers && Won(s, c)) ||
        (&& (forall id :: id in s.table.rows && s.table.rows[id].nonce == nonce ==>
               id == stale && s.table.rows[id].expiresAt <= s.now)
         && (forall c :: c in racers ==> Undecided(s, nonce, s.calls[c], stale))))
  }

  ghost predicate Undecided(s: State, nonce: string, call: Call, stale: int)
  {
    match call
    case Judging(_, _, id, x) => id == stale && x <= s.now
    case Deleting(_, _, id) => id == stale
    case Retrying(_, _) => !Holds(s.table, nonce)
    case Returned(_, _, _) => false
    case _ => true
  }

  /** A racer's own statement: it wins, or the race stays open. */
  lemma RacerKeepsOpen(s: State, c: nat, nonce: string, racers: set<nat>, stale: int)
    requires Open(s, nonce, racers, stale) && Inv(s) && c in racers
    requires forall d :: d in racers ==> !Won(s, d)
    ensures Open(RunCall(s, c, ById), nonce, racers, stale)
  {
    var t := RunCall(s, c, ById);
    assert Undecided(s, nonce, s.calls[c], stale);
    if !Won(t, c) {
      forall d | d in racers ensures Undecided(t, nonce, t.calls[d], stale) {
        assert Undecided(s, nonce, s.calls[d], stale);
      }
    }
  }

  /** Anything that leaves the racers and the table's rows for the nonce alone, or takes rows away. */
  lemma OthersKeepOpen(s: State, t: State, nonce: string, racers: set<nat>, stale: int)
    requires Open(s, nonce, racers, stale)
    requires Racing(t, nonce, racers) && t.now >= s.now && t.table.nextId >= s.table.nextId
    requires forall c :: c in racers ==> t.calls[c] == s.calls[c]
    requires forall id :: id in t.table.rows && t.table.rows[id].nonce == nonce ==>
               id in s.table.rows && s.table.rows[id] == t.table.rows[id]
    ensures Open(t, nonce, racers, stale)
  {
  }

  /** What one step of call `c` may touch: its own place, and rows of its own nonce. */
  ghost predicate Local(s: State, c: nat, t: State)
    requires c in s.calls
  {
    && t.now == s.now && s.table.nextId <= t.table.nextId
    && c in t.calls && t.calls == s.calls[c := t.calls[c]] && t.calls[c].nonce == s.calls[c].nonce
    && (forall id :: id in t.table.rows && t.table.rows[id].nonce != s.calls[c].nonce ==>
          id in s.table.rows && s.table.rows[id] == t.table.rows[id])
  }

  lemma RunIsLocal(s: State, c: nat)
    requires Sound(s.table) && c in s.calls
    ensures Local(s, c, RunCall(s, c, ById))
  {
  }

  lemma BreakIsLocal(s: State, c: nat, landed: bool)
    requires Sound(s.table) && c in s.calls
    ensures Local(s, c, BreakCall(s, c, landed))
  {
  }

  /** Once somebody has won, the race is settled for good. */
  lemma WinnerKeepsOpen(s: State, t: State, c: nat, nonce: string, racers: set<nat>, stale: int)
    requires Open(s, nonce, racers, stale) && c in s.calls && Local(s, c, t)
    requires s.calls[c].Returned? ==> t.calls[c] == s.calls[c]
    requires exists w :: w in racers && Won(s, w)
    ensures Open(t, nonce, racers, stale)
  {
  }

  lemma CallKeepsOpen(s: State, t: State, c: nat, nonce: string, racers: set<nat>, stale: int)
    requires Open(s, nonce, racers, stale) && Inv(s) && c in s.calls && Local(s, c, t)
    requires s.calls[c].Returned? ==> t.calls[c] == s.calls[c]
    requires c in racers ==> t == RunCall(s, c, ById)
    ensures Open(t, nonce, racers, stale)
  {
    if exists w :: w in racers && Won(s, w) {
      WinnerKeepsOpen(s, t, c, nonce, racers, stale);
    } else if c in racers {
      RacerKeepsOpen(s, c, nonce, racers, stale);
    } else {
      OthersKeepOpen(s, t, nonce, racers, stale);
    }
  }

  lemma StepKeepsOpen(s: State, e: Event, nonce: string, racers: set<nat>, stale: int)
    requires Open(s, nonce, racers, stale) && Inv(s)
    requires e.Begin? ==> e.nonce != nonce
    requires e.Break? ==> e.call !in racers
    ensures Open(Apply(s, e, ById), nonce, racers, stale)
  {
    match e
    case Run(c) =>
      if c in s.calls {
        RunIsLocal(s, c);
        CallKeepsOpen(s, RunCall(s, c, ById), c, nonce, racers, stale);
      }
    case Break(c, landed) =>
      if c in s.calls {
        BreakIsLocal(s, c, landed);
        CallKeepsOpen(s, BreakCall(s, c, landed), c, nonce, racers, stale);
      }
    case _ => OthersKeepOpen(s, Apply(s, e, ById), nonce, racers, stale);
  }

  lemma {:induction false} RunKeepsOpen(s: State, es: seq<Event>, nonce: string, racers: set<nat>, stale: int)
    requires Start(s) && Racing(s, nonce, racers) && NoLiveRow(s, nonce) && Fair(es, nonce, racers)
    requires stale < s.table.nextId
    requires forall id :: id in s.table.rows && s.table.rows[id].nonce == nonce ==> id == stale
    ensures Open(Exec(s, es, ById), nonce, racers, stale)
  {
    if es == [] {
      forall c | c in racers ensures Undecided(s, nonce, s.calls[c], stale) {
        assert s.calls[c].Inserting?;
      }
    } else {
      var before := es[..|es| - 1];
      RunKeepsOpen(s, before, nonce, racers, stale);
      RunKeepsInv(s, before);
      assert es[|es| - 1] in es;
      StepKeepsOpen(Exec(s, before, ById), es[|es| - 1], nonce, racers, stale);
    }
  }

  lemma SomebodyWon(t: State, nonce: string, racers: set<nat>, stale: int) returns (w: nat)
    requires Open(t, nonce, racers, stale) && racers != {} && forall c :: c in racers ==> t.calls[c].Returned?
    ensures w in racers && Won(t, w)
  {
    var c :| c in racers;
    assert t.calls[c].Returned? && !Undecided(t, nonce, t.calls[c], stale);
    w :| w in racers && Won(t, w);
  }

  /** Exactly one winner. Any number of calls racing on one nonce with no live row, none of them
      failing: once all have returned, if no winner's row has expired meanwhile, exactly one was told
      `Ok(true)` and every other one `Ok(false)`. */
  lemma ExactlyOneWinner(s: State, es: seq<Event>, nonce: string, racers: set<nat>)
    requires Start(s) && Racing(s, nonce, racers) && NoLiveRow(s, nonce) && Fair(es, nonce, racers)
    requires racers != {}
    requires var t := Exec(s, es, ById);
             forall c :: c in racers ==>
               c in t.calls && t.calls[c].Returned? && (Won(t, c) ==> t.calls[c].expiresAt > t.now)
    ensures var t := Exec(s, es, ById);
            exists w :: w in racers && Won(t, w) &&
                        forall c :: c in racers && c != w ==> t.calls[c].verdict == Seen
  {
    var stale: int := if Holds(s.table, nonce) then RowOf(s.table, nonce) else -1;
    RunKeepsOpen(s, es, nonce, racers, stale);
    RunKeepsInv(s, es);
    RacersDoNotFail(s, es, nonce, racers);
    var t := Exec(s, es, ById);
    var w := SomebodyWon(t, nonce, racers, stale);
    forall c | c in racers && c != w ensures t.calls[c].verdict == Seen {
      WinnersDoNotOverlap(t, w, c);
    }
  }

  /** Two winners of one nonce: the row of one of them is past its lifetime. */
  lemma WinnersDoNotOverlap(s: State, a: nat, b: nat)
    requires Inv(s) && Won(s, a) && a != b && b in s.calls && s.calls[a].nonce == s.calls[b].nonce
    ensures Won(s, b) ==> s.calls[a].expiresAt <= s.now || s.calls[b].expiresAt <= s.now
  {
  }

  lemma RacerDoesNotFail(s: State, e: Event, c: nat)
    requires c in s.calls && (s.calls[c].Returned? ==> s.calls[c].verdict != Failed) && (e.Break? ==> e.call != c)
    ensures var t := Apply(s, e, ById); c in t.calls && (t.calls[c].Returned? ==> t.calls[c].verdict != Failed)
  {
  }

  lemma {:induction false} RacersDoNotFail(s: State, es: seq<Event>, nonce: string, racers: set<nat>)
    requires Start(s) && Fair(es, nonce, racers) && racers <= s.calls.Keys
    ensures var t := Exec(s, es, ById);
            forall c :: c in racers ==> c in t.calls && (t.calls[c].Returned? ==> t.calls[c].verdict != Failed)
  {
    if es != [] {
      var (before, e) := (es[..|es| - 1], es[|es| - 1]);
      RacersDoNotFail(s, before, nonce, racers);
      assert e in es;
      forall c | c in racers
        ensures c in Exec(s, es, ById).calls
                && (Exec(s, es, ById).calls[c].Returned? ==> Exec(s, es, ById).calls[c].verdict != Failed)
      {
        RacerDoesNotFail(Exec(s, before, ById), e, c);
      }
    }
  }

  /** One more event at the end of a run. */
  lemma Then(s: State, es: seq<Event>, e: Event, key: DeleteKey) returns (more: seq<Event>)
    ensures more == es + [e]
    ensures Exec(s, more, key) == Apply(Exec(s, es, key), e, key)
  {
    more := es + [e];
    assert more[..|more| - 1] == es;
  }

  /** How many statements a call still has. */
  function Left(call: Call): nat
  {
    match call
    case Inserting(_, _) => 5
    case Finding(_, _) => 4
    case Judging(_, _, _, _) => 3
    case Deleting(_, _, _) => 2
    case Retrying(_, _) => 1
    case Returned(_, _, _) => 0
  }

  /** Nobody waits for anybody: every statement takes a call nearer its answer, five at most. */
  lemma EveryStatementAdvances(s: State, c: nat)
    requires c in s.calls
    ensures var t := Apply(s, Run(c), ById);
            c in t.calls && Left(s.calls[c]) <= 5 && (Left(s.calls[c]) > 0 ==> Left(t.calls[c]) < Left(s.calls[c]))
  {
  }

  /** Three statements take a call that finds an expired row to its delete. */
  lemma ReachDelete(s: State, es: seq<Event>, c: nat, id: nat, key: DeleteKey) returns (more: seq<Event>)
    requires var t := Exec(s, es, key);
             && Sound(t.table) && c in t.calls && t.calls[c].Inserting?
             && id in t.table.rows && t.table.rows[id].nonce == t.calls[c].nonce
             && t.table.rows[id].expiresAt <= t.now
    ensures var t := Exec(s, es, key);
            Exec(s, more, key) ==
            t.(calls := t.calls[c := Deleting(t.calls[c].nonce, t.calls[c].expiresAt, id)])
  {
    var t := Exec(s, es, key);
    var n, x := t.calls[c].nonce, t.calls[c].expiresAt;
    more := Then(s, es, Run(c), key);
    assert Exec(s, more, key) == t.(calls := t.calls[c := Finding(n, x)]);
    assert RowOf(t.table, n) == id;
    more := Then(s, more, Run(c), key);
    assert Exec(s, more, key).calls == t.calls[c := Judging(n, x, id, t.table.rows[id].expiresAt)];
    more := Then(s, more, Run(c), key);
    assert Exec(s, more, key).calls == t.calls[c := Deleting(n, x, id)];
  }

  /** A delete by nonce and the insert after it, of a call past a stale row: it is accepted. */
  lemma DeletesAndInserts(start: State, es: seq<Event>, c: nat) returns (more: seq<Event>)
    requires c in Exec(start, es, ByNonce).calls && Exec(start, es, ByNonce).calls[c].Deleting?
    ensures var (s, t) := (Exec(start, es, ByNonce), Exec(start, more, ByNonce));
            var (n, x) := (s.calls[c].nonce, s.calls[c].expiresAt);
            && t.now == s.now && t.calls == s.calls[c := Returned(n, x, Fresh)]
            && |t.accepted| == |s.accepted| + 1 && t.accepted[..|s.accepted|] == s.accepted
            && t.accepted[|s.accepted|] == Acceptance(c, s.table.nextId, n, x, s.now)
  {
    more := Then(start, es, Run(c), ByNonce);
    more := Then(start, more, Run(c), ByNonce);
  }

  /** The delete being by row id is what makes it hold. With a delete by nonce one interleaving of
      two calls, both past the same expired row, accepts the nonce twice while the first row lives. */
  lemma DeleteByNonceAcceptsTwice() returns (s: State, es: seq<Event>)
    ensures Start(s)
    ensures !Spaced(Exec(s, es, ByNonce).accepted)
  {
    var a := Inserting("n", 100);
    s := State(10, Table(map[0 := Row("n", 5)], 1), map[1 := a, 2 := a], []);
    es := ReachDelete(s, [], 1, 0, ByNonce);
    es := ReachDelete(s, es, 2, 0, ByNonce);
    es := DeletesAndInserts(s, es, 2);
    es := DeletesAndInserts(s, es, 1);
    var log := Exec(s, es, ByNonce).accepted;
    assert log[1].nonce == log[0].nonce && log[1].at < log[0].expiresAt;
  }
}

/** One call of `record_if_unseen` as the program runs it, over the shared table, with the other
    replicas and the sweeper free to act before each of its statements. */
module NonceStore {
  import opened NonceTables
  import opened NonceRace

  class PgNonceStore {
    var table: Table
    var now: int
    var failures: nat  // statements the database has failed so far

    ghost predicate Valid()
      reads this
    {
      Sound(table)
    }

    /** Everybody else: time passes, expired rows are swept or taken over, nonces are recorded. What
        held since an earlier moment of the table holds still. */
    method Interfere(ghost since: Table)
      requires Valid() && Sound(since) && Evolves(since, table, now)
      modifies this`table, this`now
      ensures Valid() && now >= old(now) && Evolves(old(table), table, now) && Evolves(since, table, now)
    {
      var steps: nat :| true;
      for i := 0 to steps
        invariant Valid() && now >= old(now) && Evolves(old(table), table, now)
      {
        var elapsed: nat, id: nat, nonce: string, expiresAt: int :| true;
        now := now + elapsed;
        if id in table.rows && table.rows[id].expiresAt <= now {
          table := Delete(table, id);
        }
        table := Insert(table, nonce, expiresAt);
      }
      EvolvesOn(since, old(table), table, old(now), now);
    }

    method InsertRow(nonce: string, expiresAt: int) returns (landed: bool, id: nat)
      requires Valid()
      modifies this`table
      ensures Valid() && table == Insert(old(table), nonce, expiresAt)
      ensures landed <==> !Holds(old(table), nonce)
      ensures id == old(table.nextId)
    {
      landed, id := !Holds(table, nonce), table.nextId;
      table := Insert(table, nonce, expiresAt);
    }

    method Find(nonce: string) returns (found: bool, id: nat, expiresAt: int)
      requires Valid()
      ensures found <==> Holds(table, nonce)
      ensures found ==> id in table.rows && table.rows[id] == Row(nonce, expiresAt)
    {
      found, id, expiresAt := Holds(table, nonce), 0, 0;
      if found {
        id :| id in table.rows && table.rows[id].nonce == nonce;
        expiresAt := table.rows[id].expiresAt;
      }
    }

    /** Whether the database fails the next statement, and whether its effect was committed all the same. */
    method Outcome() returns (fails: bool, landed: bool)
      modifies this`failures
      ensures failures == old(failures) + if fails then 1 else 0
    {
      fails, landed :| true;
      if fails { failures := failures + 1; }
    }

    /** The row that was in the way, and whether it is still live when judged. One that is not live is
        gone or expired from then on, and no other row of the nonce dates from before the read. The read may
        fail. */
    method FindLive(nonce: string, ghost since: Table) returns (fails: bool, live: bool, found: bool, id: nat)
      requires Valid() && Sound(since) && Evolves(since, table, now)
      modifies this
      ensures Valid() && now >= old(now) && Evolves(old(table), table, now) && Evolves(since, table, now)
      ensures failures == old(failures) + if fails then 1 else 0
      ensures live ==> HoldsLive(table, nonce, now)
      ensures !live && found && id in table.rows ==> table.rows[id].expiresAt <= now
      ensures found ==> id < table.nextId
      ensures !fails ==> forall k :: k in table.rows && k < old(table.nextId) && table.rows[k].nonce == nonce ==>
                found && k == id
    {
      Interfere(since);
      var landed;
      fails, landed := Outcome();
      if fails { return true, false, false, 0; }
      var expiry;
      found, id, expiry := Find(nonce);
      Interfere(since);
      live := found && expiry > now;
      if live { assert table.rows[id] == Row(nonce, expiry); }
    }

    /** The delete of the stale row by its id: no live row goes, whether or not it reports an error. */
    method DeleteStale(id: nat, ghost since: Table) returns (fails: bool)
      requires Valid() && Sound(since) && Evolves(since, table, now)
      requires id < table.nextId && (id in table.rows ==> table.rows[id].expiresAt <= now)
      modifies this
      ensures Valid() && now >= old(now) && Evolves(old(table), table, now) && Evolves(since, table, now)
      ensures failures == old(failures) + if fails then 1 else 0
      ensures !fails ==> id !in table.rows
    {
      Interfere(since);
      var landed;
      fails, landed := Outcome();
      if !fails || landed { table := Delete(table, id); }
    }

    /** The insert, first or once more: losing it to the index is an answer, not an error. One that reports an
        error may have gone in. */
    method InsertOnceMore(nonce: string, expiresAt: int, ghost since: Table) returns (verdict: Verdict, id: nat)
      requires Valid() && Sound(since) && Evolves(since, table, now)
      modifies this
      ensures Valid() && now >= old(now) && Evolves(old(table), table, now) && Evolves(since, table, now)
      ensures failures == old(failures) + if verdict == Failed then 1 else 0
      ensures verdict != Failed ==> Holds(table, nonce)
      ensures verdict == Fresh ==>
              since.nextId <= id < table.nextId && id in table.rows && table.rows[id] == Row(nonce, expiresAt)
    {
      Interfere(since);
      var fails, landed := Outcome();
      if fails {
        if landed { table := Insert(table, nonce, expiresAt); }
        return Failed, 0;
      }
      var unseen;
      unseen, id := InsertRow(nonce, expiresAt);
      assert unseen ==> table.rows[id].nonce == nonce;
      verdict := if unseen then Fresh else Seen;
    }

    /** Whatever the others do, and whichever of its statements fails, the call removes no row that is still
        live, and it fails exactly when one of its statements does. Told `Fresh`, its own row went in, and no
        row that was there before lives; told `Seen`, a row of the nonce lives as the call returns, or somebody
        else recorded the nonce while it ran. */
    method RecordIfUnseen(nonce: string, expiresAt: int) returns (verdict: Verdict, id: nat)
      requires Valid()
      modifies this
      ensures Valid() && now >= old(now) && Evolves(old(table), table, now)
      ensures verdict == Failed <==> failures > old(failures)
      ensures verdict != Failed ==> Holds(table, nonce)
      ensures verdict == Fresh ==>
                && old(table.nextId) <= id < table.nextId && id in table.rows && table.rows[id] == Row(nonce, expiresAt)
                && !HoldsLive(old(table), nonce, now)
      ensures verdict == Seen ==>
                || HoldsLive(table, nonce, now)
                || exists k :: old(table.nextId) <= k && k in table.rows && table.rows[k].nonce == nonce
    {
      verdict, id := InsertOnceMore(nonce, expiresAt, table);
      if verdict != Seen { return; }
      var fails, live, found, seen := FindLive(nonce, old(table));
      if fails { return Failed, 0; }
      if live { return; }
      if found {
        fails := DeleteStale(seen, old(table));
        if fails { return Failed, 0; }
      }
      verdict, id := InsertOnceMore(nonce, expiresAt, old(table));
    }

    /** Run alone, the call accepts exactly the nonces with no live row, and replaces a stale row. */
    method RecordAlone(nonce: string, expiresAt: int) returns (unseen: bool)
      requires Valid()
      modifies this`table
      ensures Valid() && unseen == !HoldsLive(old(table), nonce, now)
      ensures !unseen ==> table == old(table)
      ensures unseen ==> forall id :: id in table.rows <==>
                (id == old(table.nextId) || (id in old(table).rows && old(table).rows[id].nonce != nonce))
      ensures unseen ==> table.rows[old(table.nextId)] == Row(nonce, expiresAt)
    {
      var id;
      unseen, id := InsertRow(nonce, expiresAt);
      if unseen { return; }
      var found, seen, seenExpiry := Find(nonce);
      if seenExpiry > now { return; }
      table := Delete(table, seen);
      unseen, id := InsertRow(nonce, expiresAt);
    }
  }
}
