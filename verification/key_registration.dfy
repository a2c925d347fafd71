/**
 Registering, pairing and revoking keys (`client_keys.rs`, `console_keys.rs`).

 A registration checks for the thumbprint and then inserts; between the two, other registrations,
 pairings and revocations run. A unique index on the thumbprint is the only thing that orders them:
 the loser's insert fails, its transaction is undone, and it checks again, once. A revocation is one
 serializable transaction.
 */
module KeyTables {
  import opened Options

  type Owner = nat  // the id of an app client, or of a person

  /** A client key has no expiry. */
  datatype KeyRow = KeyRow(thumbprint: string, owner: Owner, expiresAt: Option<int>, revokedAt: Option<int>)
  datatype Table = Table(rows: map<nat, KeyRow>, nextId: nat)

  predicate Has(t: Table, thumbprint: string)
  {
    exists id :: id in t.rows && t.rows[id].thumbprint == thumbprint
  }

  ghost function IdOf(t: Table, thumbprint: string): (id: nat)
    requires Has(t, thumbprint)
    ensures id in t.rows && t.rows[id].thumbprint == thumbprint
  {
    var id :| id in t.rows && t.rows[id].thumbprint == thumbprint; id
  }

  /** The insert, and the unique index that refuses it. */
  function Add(t: Table, row: KeyRow): Table
  {
    if Has(t, row.thumbprint) then t else Table(t.rows[t.nextId := row], t.nextId + 1)
  }

  /** `revoke`: stamped once. */
  function Stamp(t: Table, id: nat, now: int): Table
  {
    if id in t.rows && t.rows[id].revokedAt.None?
    then t.(rows := t.rows[id := t.rows[id].(revokedAt := Some(now))]) else t
  }

  predicate Live(row: KeyRow, now: int)
  {
    row.revokedAt.None? && (row.expiresAt.Some? ==> row.expiresAt.value > now)
  }

  ghost predicate Sound(t: Table)
  {
    && (forall id :: id in t.rows ==> id < t.nextId)
    && (forall i, j :: i in t.rows && j in t.rows && t.rows[i].thumbprint == t.rows[j].thumbprint ==> i == j)
  }

  /** All that may ever happen to a row: it may be revoked, once. */
  predicate RowEvolves(a: KeyRow, b: KeyRow)
  {
    && (a.thumbprint, a.owner, a.expiresAt) == (b.thumbprint, b.owner, b.expiresAt)
    && (a.revokedAt.Some? ==> b.revokedAt == a.revokedAt)
  }

  ghost predicate Evolves(s: Table, t: Table)
  {
    s.nextId <= t.nextId && forall id :: id in s.rows ==> id in t.rows && RowEvolves(s.rows[id], t.rows[id])
  }

  lemma AddEvolves(t: Table, row: KeyRow)
    requires Sound(t)
    ensures Sound(Add(t, row)) && Evolves(t, Add(t, row)) && Has(Add(t, row), row.thumbprint)
    ensures !Has(t, row.thumbprint) ==>
            IdOf(Add(t, row), row.thumbprint) == t.nextId && Add(t, row).rows[t.nextId] == row
  {
    var u := Add(t, row);
    if !Has(t, row.thumbprint) {
      assert u.rows[t.nextId].thumbprint == row.thumbprint;
      assert forall id :: id in t.rows ==> t.rows[id].thumbprint != row.thumbprint;
    }
  }

  lemma StampEvolves(t: Table, id: nat, now: int)
    requires Sound(t)
    ensures Sound(Stamp(t, id, now)) && Evolves(t, Stamp(t, id, now))
  {
  }

  lemma EvolvesOn(s: Table, t: Table, u: Table)
    requires Evolves(s, t) && Evolves(t, u)
    ensures Evolves(s, u)
  {
  }

  /** The row a thumbprint names never changes hands: the same id for good. */
  lemma IdIsForGood(s: Table, t: Table, thumbprint: string)
    requires Sound(t) && Evolves(s, t) && Has(s, thumbprint)
    ensures Has(t, thumbprint) && IdOf(t, thumbprint) == IdOf(s, thumbprint)
  {
  }
}

module KeyRace {
  import opened Options
  import opened KeyTables

  const KEY_LIFETIME: nat := 30 * 86_400_000_000

  datatype Client = Client(live: bool, pairs: bool)  // active and not retired; holds the pairing scope
  datatype Person = Person(email: string, role: string, active: bool)

  datatype Db = Db(now: int, clients: map<Owner, Client>, users: map<Owner, Person>, nextUser: Owner,
                   links: map<string, Owner>, clientKeys: Table, consoleKeys: Table)

  /** What a call is about. `asked` is the clock when it began. */
  datatype Job =
    | ClientJob(client: Owner, operator: bool, asked: int)
    | ConsoleJob(subject: string, asked: int)
    | PairJob(user: Owner, asked: int)

  datatype Error = NotFound | Invalid | Denied | Conflict | Unique | Database

  /** With no owner yet, the insert creates the person and the link too. */
  datatype Phase =
    | Checking(attempt: nat)
    | Inserting(attempt: nat, owner: Option<Owner>)
    | Returned(id: nat)
    | Failed(error: Error)

  /** `linked` is a history variable: whether the person was linked when the call began. */
  datatype Call = Call(job: Job, thumbprint: string, linked: bool, phase: Phase)

  datatype State = State(db: Db, calls: map<nat, Call>)

  datatype Event =
    | Tick(elapsed: nat)
    | SetClient(client: Owner, becomes: Client)
    | SetUser(user: Owner, turns: Person)
    | AddUser(person: Person)
    | Begin(call: nat, job: Job, thumbprint: string)
    | Run(call: nat)
    | Break(call: nat, landed: bool)  // the database fails; `landed`: the commit had gone through
    | RevokeClientKey(id: nat)
    | RevokeConsoleKey(id: nat)

  function KeysOf(db: Db, job: Job): Table
  {
    if job.ClientJob? then db.clientKeys else db.consoleKeys
  }

  ghost function WithKeys(db: Db, job: Job, keys: Table): Db
  {
    if job.ClientJob? then db.(clientKeys := keys) else db.(consoleKeys := keys)
  }

  /** `same_registration`, of either file. */
  function SameRegistration(row: KeyRow, id: nat, owner: Owner, job: Job): Phase
  {
    if row.owner != owner then Failed(Conflict)
    else if row.revokedAt.Some? then Failed(Conflict)
    else if !job.ClientJob? && row.expiresAt.Some? && row.expiresAt.value <= job.asked then Failed(Conflict)
    else Returned(id)
  }

  /** `new_key_input`, and the client key's own. */
  function NewRow(call: Call, owner: Owner): KeyRow
  {
    KeyRow(call.thumbprint, owner, if call.job.ClientJob? then None else Some(call.job.asked + KEY_LIFETIME), None)
  }

  /** The reads of one attempt and the branch they decide. */
  ghost function Check(db: Db, call: Call, attempt: nat): Phase
  {
    var keys := KeysOf(db, call.job);
    match call.job
    case ClientJob(client, operator, _) =>
      if client !in db.clients then Failed(NotFound)
      else if !db.clients[client].live then Failed(Invalid)
      else if !operator && db.clients[client].pairs then Failed(Denied)
      else if Has(keys, call.thumbprint) then
        SameRegistration(keys.rows[IdOf(keys, call.thumbprint)], IdOf(keys, call.thumbprint), client, call.job)
      else Inserting(attempt, Some(client))
    case ConsoleJob(subject, _) =>
      if Has(keys, call.thumbprint) then
        if subject !in db.links then Failed(Conflict)
        else SameRegistration(keys.rows[IdOf(keys, call.thumbprint)], IdOf(keys, call.thumbprint), db.links[subject],
                              call.job)
      else if subject in db.links then
        var user := db.links[subject];
        if user !in db.users || !db.users[user].active then Failed(Denied)
        else if db.users[user].role == "owner" then Failed(Denied)
        else Inserting(attempt, Some(user))
      else Inserting(attempt, None)
    case PairJob(user, _) =>
      if Has(keys, call.thumbprint) then
        SameRegistration(keys.rows[IdOf(keys, call.thumbprint)], IdOf(keys, call.thumbprint), user, call.job)
      else Inserting(attempt, Some(user))
  }

  function Email(subject: string): string { subject + "@vaam.invalid" }

  ghost predicate EmailTaken(db: Db, email: string)
  {
    exists u :: u in db.users && db.users[u].email == email
  }

  /** Does the insert violate an index? The person and the link go in before the key. */
  ghost predicate Violates(db: Db, call: Call)
    requires call.phase.Inserting?
  {
    || (call.phase.owner.None? && call.job.ConsoleJob?
        && (EmailTaken(db, Email(call.job.subject)) || call.job.subject in db.links))
    || Has(KeysOf(db, call.job), call.thumbprint)
  }

  /** A first pairing: the person, with the paired role, and the link that names them. */
  function Enrol(db: Db, subject: string): Db
  {
    db.(users := db.users[db.nextUser := Person(Email(subject), "admin", true)], nextUser := db.nextUser + 1,
        links := db.links[subject := db.nextUser])
  }

  /** The writes of one attempt, committed together. */
  ghost function Commit(db: Db, call: Call): Db
    requires call.phase.Inserting?
  {
    match call.phase.owner
    case Some(owner) => WithKeys(db, call.job, Add(KeysOf(db, call.job), NewRow(call, owner)))
    case None =>
      var enrolled := if call.job.ConsoleJob? then Enrol(db, call.job.subject) else db;
      WithKeys(enrolled, call.job, Add(KeysOf(db, call.job), NewRow(call, db.nextUser)))
  }

  function Move(s: State, c: nat, phase: Phase): State
    requires c in s.calls
  {
    s.(calls := s.calls[c := s.calls[c].(phase := phase)])
  }

  ghost function RunCall(s: State, c: nat): State
    requires c in s.calls
  {
    var call := s.calls[c];
    match call.phase
    case Checking(attempt) => Move(s, c, Check(s.db, call, attempt))
    case Inserting(attempt, _) =>
      if Violates(s.db, call) then Move(s, c, if attempt < 2 then Checking(attempt + 1) else Failed(Unique))
      else Move(s.(db := Commit(s.db, call)), c, Returned(KeysOf(s.db, call.job).nextId))
    case _ => s
  }

  ghost function BreakCall(s: State, c: nat, landed: bool): State
    requires c in s.calls
  {
    var call := s.calls[c];
    if call.phase.Returned? || call.phase.Failed? then s
    else
      var db := if landed && call.phase.Inserting? && !Violates(s.db, call) then Commit(s.db, call) else s.db;
      Move(s.(db := db), c, Failed(Database))
  }

  /** A call as it begins. */
  function Opened(db: Db, job: Job, thumbprint: string): Call
  {
    Call(job.(asked := db.now), thumbprint, job.ConsoleJob? && job.subject in db.links, Checking(1))
  }

  ghost function Apply(s: State, e: Event): State
  {
    match e
    case Tick(d) => s.(db := s.db.(now := s.db.now + d))
    case SetClient(id, client) => s.(db := s.db.(clients := s.db.clients[id := client]))
    case SetUser(id, user) => if id in s.db.users then s.(db := s.db.(users := s.db.users[id := user])) else s
    case AddUser(user) => s.(db := s.db.(users := s.db.users[s.db.nextUser := user], nextUser := s.db.nextUser + 1))
    case Begin(c, job, thumbprint) =>
      if c in s.calls then s
      else
        var found := job.PairJob? ==> job.user in s.db.users && s.db.users[job.user].active;
        var call := Opened(s.db, job, thumbprint);
        s.(calls := s.calls[c := if found then call else call.(phase := Failed(NotFound))])
    case Run(c) => if c in s.calls then RunCall(s, c) else s
    case Break(c, landed) => if c in s.calls then BreakCall(s, c, landed) else s
    case RevokeClientKey(id) => s.(db := s.db.(clientKeys := Stamp(s.db.clientKeys, id, s.db.now)))
    case RevokeConsoleKey(id) => s.(db := s.db.(consoleKeys := Stamp(s.db.consoleKeys, id, s.db.now)))
  }

  ghost function Exec(s: State, es: seq<Event>): State
  {
    if |es| == 0 then s else Apply(Exec(s, es[..|es| - 1]), es[|es| - 1])
  }

  ghost predicate Start(s: State)
  {
    Sound(s.db.clientKeys) && Sound(s.db.consoleKeys) && s.calls == map[]
  }

  // ----- rows for good -----

  ghost predicate Kept(a: Db, b: Db)
  {
    && Sound(b.clientKeys) && Sound(b.consoleKeys) && a.now <= b.now
    && Evolves(a.clientKeys, b.clientKeys) && Evolves(a.consoleKeys, b.consoleKeys)
    && forall subject :: subject in a.links ==> subject in b.links && b.links[subject] == a.links[subject]
  }

  lemma CommitKeeps(db: Db, call: Call)
    requires Sound(db.clientKeys) && Sound(db.consoleKeys) && call.phase.Inserting? && !Violates(db, call)
    ensures Kept(db, Commit(db, call))
  {
    var owner := if call.phase.owner.Some? then call.phase.owner.value else db.nextUser;
    AddEvolves(KeysOf(db, call.job), NewRow(call, owner));
  }

  lemma StepKeeps(s: State, e: Event)
    requires Sound(s.db.clientKeys) && Sound(s.db.consoleKeys)
    ensures Kept(s.db, Apply(s, e).db)
  {
    match e
    case Run(c) =>
      if c in s.calls && s.calls[c].phase.Inserting? && !Violates(s.db, s.calls[c]) { CommitKeeps(s.db, s.calls[c]); }
    case Break(c, _) =>
      if c in s.calls && s.calls[c].phase.Inserting? && !Violates(s.db, s.calls[c]) { CommitKeeps(s.db, s.calls[c]); }
    case RevokeClientKey(id) => StampEvolves(s.db.clientKeys, id, s.db.now);
    case RevokeConsoleKey(id) => StampEvolves(s.db.consoleKeys, id, s.db.now);
    case _ =>
  }

  lemma {:induction false} RunKeeps(s: State, es: seq<Event>)
    requires Sound(s.db.clientKeys) && Sound(s.db.consoleKeys)
    ensures Kept(s.db, Exec(s, es).db)
  {
    if |es| > 0 {
      var t := Exec(s, es[..|es| - 1]);
      RunKeeps(s, es[..|es| - 1]);
      StepKeeps(t, es[|es| - 1]);
      EvolvesOn(s.db.clientKeys, t.db.clientKeys, Exec(s, es).db.clientKeys);
      EvolvesOn(s.db.consoleKeys, t.db.consoleKeys, Exec(s, es).db.consoleKeys);
    }
  }

  /** From any moment on, over every interleaving: a thumbprint has at most one row, the row is there
      for good with the owner and the expiry it was given, a revocation time once stamped never moves,
      and a key that is not live never is again. */
  lemma KeysNeverChange(s: State, es: seq<Event>, job: Job, id: nat, other: nat)
    requires Sound(s.db.clientKeys) && Sound(s.db.consoleKeys) && id in KeysOf(s.db, job).rows
    ensures var (before, after) := (KeysOf(s.db, job), KeysOf(Exec(s, es).db, job));
            && id in after.rows
            && (other in after.rows && after.rows[other].thumbprint == after.rows[id].thumbprint ==> other == id)
            && (after.rows[id].thumbprint, after.rows[id].owner, after.rows[id].expiresAt)
               == (before.rows[id].thumbprint, before.rows[id].owner, before.rows[id].expiresAt)
            && (before.rows[id].revokedAt.Some? ==> after.rows[id].revokedAt == before.rows[id].revokedAt)
            && (!Live(before.rows[id], s.db.now) ==> !Live(after.rows[id], Exec(s, es).db.now))
  {
    RunKeeps(s, es);
  }

  // ----- the retry -----

  /** Whether the retry is bound to settle the call: there was no person still to create when it began. */
  predicate Settled(call: Call)
  {
    call.job.ConsoleJob? ==> call.linked
  }

  /** Who the key is for. */
  ghost predicate IsOwner(db: Db, job: Job, owner: Owner)
  {
    match job
    case ClientJob(client, _, _) => owner == client
    case PairJob(user, _) => owner == user
    case ConsoleJob(subject, _) => subject in db.links && db.links[subject] == owner
  }

  ghost predicate CallOk(db: Db, call: Call)
  {
    (call.linked ==> call.job.ConsoleJob? && call.job.subject in db.links) && PhaseOk(db, call)
  }

  ghost predicate PhaseOk(db: Db, call: Call)
  {
    var keys := KeysOf(db, call.job);
    match call.phase
    case Checking(attempt) => attempt in {1, 2} && (Settled(call) && attempt == 2 ==> Has(keys, call.thumbprint))
    case Inserting(attempt, owner) =>
      && attempt in {1, 2} && (Settled(call) ==> attempt == 1 && owner.Some?)
      && (owner.Some? ==> IsOwner(db, call.job, owner.value)) && (owner.None? ==> call.job.ConsoleJob?)
    case Returned(id) =>
      && id in keys.rows && keys.rows[id].thumbprint == call.thumbprint && IsOwner(db, call.job, keys.rows[id].owner)
      && (!call.job.ClientJob? && keys.rows[id].expiresAt.Some? ==> keys.rows[id].expiresAt.value > call.job.asked)
    case Failed(error) => Settled(call) ==> error != Unique
  }

  ghost predicate Inv(s: State)
  {
    && Sound(s.db.clientKeys) && Sound(s.db.consoleKeys)
    && forall c :: c in s.calls ==> CallOk(s.db, s.calls[c])
  }

  /** A call that does nothing keeps what it knows. */
  lemma OthersKeep(a: Db, b: Db, call: Call)
    requires Kept(a, b) && CallOk(a, call)
    ensures CallOk(b, call)
  {
  }

  lemma CheckKeeps(db: Db, call: Call, attempt: nat)
    requires Sound(KeysOf(db, call.job)) && call.phase == Checking(attempt) && CallOk(db, call)
    ensures CallOk(db, call.(phase := Check(db, call, attempt)))
  {
  }

  lemma InsertKeeps(s: State, c: nat)
    requires Inv(s) && c in s.calls && s.calls[c].phase.Inserting?
    ensures CallOk(RunCall(s, c).db, RunCall(s, c).calls[c])
  {
    var call := s.calls[c];
    assert CallOk(s.db, call);
    if !Violates(s.db, call) {
      AddEvolves(KeysOf(s.db, call.job),
                 NewRow(call, if call.phase.owner.Some? then call.phase.owner.value else s.db.nextUser));
    }
  }

  lemma StepKeepsInv(s: State, e: Event)
    requires Inv(s)
    ensures Inv(Apply(s, e))
  {
    var t := Apply(s, e);
    StepKeeps(s, e);
    forall c | c in t.calls ensures CallOk(t.db, t.calls[c]) {
      if c in s.calls && t.calls[c] == s.calls[c] {
        OthersKeep(s.db, t.db, s.calls[c]);
      } else if e == Run(c) && s.calls[c].phase.Checking? {
        CheckKeeps(s.db, s.calls[c], s.calls[c].phase.attempt);
      } else if e == Run(c) {
        InsertKeeps(s, c);
      } else if c in s.calls {
        OthersKeep(s.db, t.db, s.calls[c]);
      }
    }
  }

  lemma {:induction false} RunKeepsInv(s: State, es: seq<Event>)
    requires Inv(s)
    ensures Inv(Exec(s, es))
  {
    if |es| > 0 {
      RunKeepsInv(s, es[..|es| - 1]);
      StepKeepsInv(Exec(s, es[..|es| - 1]), es[|es| - 1]);
    }
  }

  /** How many of its own steps a call still has: it checks, inserts, and checks once more. */
  function Left(phase: Phase): nat
  {
    match phase
    case Checking(attempt) => if attempt == 1 then 3 else 1
    case Inserting(attempt, _) => 2
    case _ => 0
  }

  /** One retry is enough. A client's key, an operator's pairing and the key of a person linked when the call
      began never fail on the index, whatever races them, and every step such a call takes brings it nearer its
      answer: three steps at most. What it returns is its own key: this thumbprint, this owner, not expired when
      asked. */
  lemma OneRetryIsEnough(s: State, es: seq<Event>, c: nat)
    requires Start(s) && c in Exec(s, es).calls && Settled(Exec(s, es).calls[c])
    ensures var t := Exec(s, es);
            var (call, keys) := (t.calls[c], KeysOf(t.db, t.calls[c].job));
            && call.phase != Failed(Unique) && Left(call.phase) <= 3
            && (Left(call.phase) > 0 ==> Left(RunCall(t, c).calls[c].phase) < Left(call.phase))
            && (call.phase.Returned? ==>
                  && call.phase.id in keys.rows && keys.rows[call.phase.id].thumbprint == call.thumbprint
                  && IsOwner(t.db, call.job, keys.rows[call.phase.id].owner))
  {
    RunKeepsInv(s, es);
    var t := Exec(s, es);
    StepKeepsInv(t, Run(c));
    assert CallOk(t.db, t.calls[c]);
  }

  /** When a call returns, the row it returns is its owner's, for its thumbprint, and live: not revoked,
      and not expired when it was asked for. */
  lemma OnlyLiveKeysAreReturned(s: State, es: seq<Event>, c: nat)
    requires Start(s) && c in Exec(s, es).calls && !Exec(s, es).calls[c].phase.Returned?
    requires RunCall(Exec(s, es), c).calls[c].phase.Returned?
    ensures var u := RunCall(Exec(s, es), c);
            var (call, keys) := (u.calls[c], KeysOf(u.db, u.calls[c].job));
            && call.phase.id in keys.rows && keys.rows[call.phase.id].thumbprint == call.thumbprint
            && IsOwner(u.db, call.job, keys.rows[call.phase.id].owner) && keys.rows[call.phase.id].revokedAt.None?
            && (!call.job.ClientJob? ==> Live(keys.rows[call.phase.id], call.job.asked))
  {
    RunKeepsInv(s, es);
    var t := Exec(s, es);
    var call := t.calls[c];
    StepKeepsInv(t, Run(c));
    assert CallOk(t.db, call) && CallOk(RunCall(t, c).db, RunCall(t, c).calls[c]);
    if call.phase.Inserting? {
      AddEvolves(KeysOf(t.db, call.job),
                 NewRow(call, if call.phase.owner.Some? then call.phase.owner.value else t.db.nextUser));
    }
  }

  /** May this registration go ahead as far as its client is concerned? */
  predicate Allowed(db: Db, job: Job)
  {
    job.ClientJob? ==>
      job.client in db.clients && db.clients[job.client].live && (job.operator || !db.clients[job.client].pairs)
  }

  lemma ConflictExactly(db: Db, call: Call, attempt: nat, owner: Owner)
    requires Has(KeysOf(db, call.job), call.thumbprint) && IsOwner(db, call.job, owner) && Allowed(db, call.job)
    ensures var row := KeysOf(db, call.job).rows[IdOf(KeysOf(db, call.job), call.thumbprint)];
            Check(db, call, attempt) == Failed(Conflict) <==>
            || row.owner != owner || row.revokedAt.Some?
            || (!call.job.ClientJob? && row.expiresAt.Some? && row.expiresAt.value <= call.job.asked)
  {
  }

  /** Refused once for an owner, a key is refused to that owner for good: whatever happens meanwhile, no later
      registration of it for them returns it or inserts it again. */
  lemma ConflictIsForGood(s: State, es: seq<Event>, call: Call, later: Call, attempt: nat, again: nat, owner: Owner)
    requires Inv(s) && Has(KeysOf(s.db, call.job), call.thumbprint) && IsOwner(s.db, call.job, owner)
             && Allowed(s.db, call.job)
    requires Check(s.db, call, attempt) == Failed(Conflict)
    requires later.thumbprint == call.thumbprint && (later.job.ClientJob? <==> call.job.ClientJob?)
    requires IsOwner(Exec(s, es).db, later.job, owner) && call.job.asked <= later.job.asked
    ensures Check(Exec(s, es).db, later, again).Failed?
    ensures Allowed(Exec(s, es).db, later.job) ==> Check(Exec(s, es).db, later, again) == Failed(Conflict)
  {
    RunKeeps(s, es);
    ConflictExactly(s.db, call, attempt, owner);
    IdIsForGood(KeysOf(s.db, call.job), KeysOf(Exec(s, es).db, call.job), call.thumbprint);
    if Allowed(Exec(s, es).db, later.job) { ConflictExactly(Exec(s, es).db, later, again, owner); }
  }

  lemma ExecSnoc(s: State, es: seq<Event>, e: Event)
    ensures Exec(s, es + [e]) == Apply(Exec(s, es), e)
  {
  }

  lemma {:induction false} ExecThen(s: State, es: seq<Event>, fs: seq<Event>)
    ensures Exec(s, es + fs) == Exec(Exec(s, es), fs)
  {
    if |fs| == 0 {
      assert es + fs == es;
    } else {
      var front := fs[..|fs| - 1];
      assert (es + fs)[..|es + fs| - 1] == es + front;
      ExecThen(s, es, front);
    }
  }

  lemma Few(s: State, a: Event, b: Event, c: Event)
    ensures Exec(s, [a]) == Apply(s, a)
    ensures Exec(s, [a, b]) == Apply(Apply(s, a), b)
    ensures Exec(s, [a, b, c]) == Apply(Apply(Apply(s, a), b), c)
  {
    assert [a][..0] == [] && [a, b][..1] == [a] && [a, b, c][..2] == [a, b];
  }

  lemma Begun(s: State, c: nat, job: Job, thumbprint: string) returns (t: State)
    requires c !in s.calls && (job.PairJob? ==> job.user in s.db.users && s.db.users[job.user].active)
    ensures t == Apply(s, Begin(c, job, thumbprint)) && t == s.(calls := s.calls[c := Opened(s.db, job, thumbprint)])
  {
    t := Apply(s, Begin(c, job, thumbprint));
  }

  lemma Checked(s: State, c: nat) returns (t: State)
    requires c in s.calls && s.calls[c].phase.Checking?
    ensures t == Apply(s, Run(c))
    ensures t == s.(calls := s.calls[c := s.calls[c].(phase := Check(s.db, s.calls[c], s.calls[c].phase.attempt))])
  {
    t := Apply(s, Run(c));
  }

  lemma Inserted(s: State, c: nat) returns (t: State)
    requires c in s.calls && s.calls[c].phase.Inserting? && !Violates(s.db, s.calls[c])
    ensures t == Apply(s, Run(c))
    ensures t == State(Commit(s.db, s.calls[c]),
                       s.calls[c := s.calls[c].(phase := Returned(KeysOf(s.db, s.calls[c].job).nextId))])
  {
    t := Apply(s, Run(c));
  }

  lemma Refused(s: State, c: nat) returns (t: State)
    requires c in s.calls && s.calls[c].phase.Inserting? && Violates(s.db, s.calls[c])
    ensures t == Apply(s, Run(c)) && t.db == s.db
    ensures var attempt := s.calls[c].phase.attempt;
            t.calls == s.calls[c := s.calls[c].(phase := if attempt < 2 then Checking(attempt + 1) else Failed(Unique))]
  {
    t := Apply(s, Run(c));
  }

  /** A key that is checked for, not found and inserted, undisturbed. */
  lemma Undisturbed(s: State, c: nat, job: Job, thumbprint: string, owner: Option<Owner>) returns (t: State)
    requires c !in s.calls && (job.PairJob? ==> job.user in s.db.users && s.db.users[job.user].active)
    requires Check(s.db, Opened(s.db, job, thumbprint), 1) == Inserting(1, owner)
    requires !Violates(s.db, Opened(s.db, job, thumbprint).(phase := Inserting(1, owner)))
    ensures t == Exec(s, [Begin(c, job, thumbprint), Run(c), Run(c)])
    ensures t.db == Commit(s.db, Opened(s.db, job, thumbprint).(phase := Inserting(1, owner)))
    ensures t.calls.Keys == s.calls.Keys + {c} && forall d :: d in s.calls ==> t.calls[d] == s.calls[d]
  {
    Few(s, Begin(c, job, thumbprint), Run(c), Run(c));
    t := Begun(s, c, job, thumbprint);
    t := Checked(t, c);
    t := Inserted(t, c);
  }

  lemma AddedOnly(t: Table, row: KeyRow, thumbprint: string)
    requires Sound(t)
    ensures Has(Add(t, row), thumbprint) <==> Has(t, thumbprint) || row.thumbprint == thumbprint
  {
    AddEvolves(t, row);
    if Has(t, thumbprint) { IdIsForGood(t, Add(t, row), thumbprint); }
  }

  /** A first pairing under way: about to check for a key nobody has, of a person nobody linked. */
  ghost predicate Unlinked(s: State, c: nat)
  {
    && Sound(s.db.consoleKeys) && c in s.calls && s.calls[c].job.ConsoleJob? && s.calls[c].phase == Checking(1)
    && s.calls[c].job.subject !in s.db.links && !Has(s.db.consoleKeys, s.calls[c].thumbprint)
  }

  /** Alone, with nobody racing it: the person's synthetic address belongs to somebody who is not linked,
      and both attempts fail on it. */
  lemma TakenAddressFails(s: State, c: nat) returns (es: seq<Event>)
    requires Unlinked(s, c) && EmailTaken(s.db, Email(s.calls[c].job.subject))
    ensures forall e :: e in es ==> e == Run(c)
    ensures Exec(s, es).calls == s.calls[c := s.calls[c].(phase := Failed(Unique))] && Exec(s, es).db == s.db
  {
    var (r, two) := (Run(c), [Run(c), Run(c)]);
    var t := Checked(s, c);
    t := Refused(t, c);
    t := Checked(t, c);
    t := Refused(t, c);
    Few(s, r, r, r);
    Few(Exec(s, two), r, r, r);
    ExecThen(s, two, two);
    es := two + two;
  }

  /** Between the check of call `c` and its insert, another call comes and goes, and the insert is refused. */
  lemma Overtaken(s: State, c: nat, d: nat, attempt: nat, own: Option<Owner>, job: Job, thumbprint: string,
                  owner: Option<Owner>)
    returns (es: seq<Event>)
    requires c in s.calls && d !in s.calls && s.calls[c].phase == Checking(attempt)
    requires Check(s.db, s.calls[c], attempt) == Inserting(attempt, own)
    requires job.PairJob? ==> job.user in s.db.users && s.db.users[job.user].active
    requires Check(s.db, Opened(s.db, job, thumbprint), 1) == Inserting(1, owner)
    requires var other := Opened(s.db, job, thumbprint).(phase := Inserting(1, owner));
             !Violates(s.db, other) && Violates(Commit(s.db, other), s.calls[c].(phase := Inserting(attempt, own)))
    ensures var after := Exec(s, es);
            && after.db == Commit(s.db, Opened(s.db, job, thumbprint).(phase := Inserting(1, owner)))
            && after.calls.Keys == s.calls.Keys + {d}
            && after.calls[c] == s.calls[c].(phase := if attempt < 2 then Checking(attempt + 1) else Failed(Unique))
  {
    var other := [Begin(d, job, thumbprint), Run(d), Run(d)];
    es := Around(s, Run(c), other, Run(c));
    var x := Checked(s, c);
    var y := Undisturbed(x, d, job, thumbprint, owner);
    y := Refused(y, c);
  }

  lemma Around(s: State, a: Event, between: seq<Event>, b: Event) returns (es: seq<Event>)
    ensures Exec(s, es) == Apply(Exec(Apply(s, a), between), b)
  {
    assert [a][..0] == [] && Exec(s, [a]) == Apply(s, a);
    ExecThen(s, [a], between);
    ExecSnoc(s, [a] + between, b);
    es := [a] + between + [b];
  }

  /** The first loss, over the person: checked before the person was linked, inserted after. */
  lemma LosesThePerson(s: State, c: nat, d: nat, u: string) returns (es: seq<Event>)
    requires Unlinked(s, c) && d !in s.calls && !EmailTaken(s.db, Email(s.calls[c].job.subject))
    requires u != s.calls[c].thumbprint && !Has(s.db.consoleKeys, u)
    ensures var (after, user, subject) := (Exec(s, es), s.db.nextUser, s.calls[c].job.subject);
            && after.calls.Keys == s.calls.Keys + {d} && after.calls[c] == s.calls[c].(phase := Checking(2))
            && subject in after.db.links && after.db.links[subject] == user
            && user in after.db.users && after.db.users[user].active && after.db.users[user].role == "admin"
            && Sound(after.db.consoleKeys) && !Has(after.db.consoleKeys, s.calls[c].thumbprint)
  {
    var (call, job) := (s.calls[c], ConsoleJob(s.calls[c].job.subject, 0));
    var row := NewRow(Opened(s.db, job, u), s.db.nextUser);
    AddEvolves(s.db.consoleKeys, row);
    AddedOnly(s.db.consoleKeys, row, call.thumbprint);
    es := Overtaken(s, c, d, 1, None, job, u, None);
  }

  /** The second loss, over the key: an operator pairs it with the person meanwhile. */
  lemma LosesTheKey(s: State, c: nat, d: nat, user: Owner) returns (es: seq<Event>)
    requires Sound(s.db.consoleKeys) && c in s.calls && d !in s.calls && s.calls[c].job.ConsoleJob?
             && s.calls[c].phase == Checking(2)
    requires s.calls[c].job.subject in s.db.links && s.db.links[s.calls[c].job.subject] == user
    requires user in s.db.users && s.db.users[user].active && s.db.users[user].role == "admin"
    requires !Has(s.db.consoleKeys, s.calls[c].thumbprint)
    ensures c in Exec(s, es).calls && Exec(s, es).calls[c] == s.calls[c].(phase := Failed(Unique))
  {
    var (call, job) := (s.calls[c], PairJob(user, 0));
    AddedOnly(s.db.consoleKeys, NewRow(Opened(s.db, job, call.thumbprint), user), call.thumbprint);
    es := Overtaken(s, c, d, 2, Some(user), job, call.thumbprint, Some(user));
  }

  lemma FreshId(ids: set<nat>) returns (n: nat)
    ensures forall i :: i in ids ==> i < n
  {
    if ids == {} {
      n := 0;
    } else {
      var i :| i in ids;
      n := FreshId(ids - {i});
      assert forall j :: j in ids ==> j == i || j in ids - {i};
      if n <= i { n := i + 1; }
    }
  }

  lemma LongerThanAll(texts: set<string>) returns (u: string)
    ensures forall x :: x in texts ==> |x| < |u|
  {
    if texts == {} {
      u := "";
    } else {
      var x :| x in texts;
      u := LongerThanAll(texts - {x});
      if |u| <= |x| { u := x + "."; }
    }
  }

  /** Where it is not bound to settle, it need not: a first pairing of a person not yet linked fails on its
      own where their address is taken, and otherwise loses once to another first pairing of theirs, over
      the person, and again to an operator's pairing of the same key, over the thumbprint. */
  lemma UnlinkedCanLose(s: State, c: nat) returns (es: seq<Event>)
    requires Unlinked(s, c)
    ensures c in Exec(s, es).calls && Exec(s, es).calls[c].phase == Failed(Unique)
  {
    if EmailTaken(s.db, Email(s.calls[c].job.subject)) {
      es := TakenAddressFails(s, c);
    } else {
      var taken := set i | i in s.db.consoleKeys.rows :: s.db.consoleKeys.rows[i].thumbprint;
      var u := LongerThanAll(taken + {s.calls[c].thumbprint});
      assert !Has(s.db.consoleKeys, u);
      var d := FreshId(s.calls.Keys);
      var lost := LosesThePerson(s, c, d, u);
      var e := FreshId(Exec(s, lost).calls.Keys);
      var rest := LosesTheKey(Exec(s, lost), c, e, s.db.nextUser);
      ExecThen(s, lost, rest);
      es := lost + rest;
    }
  }

  /** A call stays the call it began as. */
  lemma {:induction false} CallIsTheSame(s: State, es: seq<Event>, c: nat)
    requires c in s.calls
    ensures c in Exec(s, es).calls && Exec(s, es).calls[c] == s.calls[c].(phase := Exec(s, es).calls[c].phase)
  {
    if |es| > 0 { CallIsTheSame(s, es[..|es| - 1], c); }
  }

  /** However the run goes on, this registration does not fail on an index. */
  ghost predicate AlwaysSettles(s: State, c: nat)
  {
    forall es :: c in Exec(s, es).calls ==> Exec(s, es).calls[c].phase != Failed(Unique)
  }

  /** Still to check, or answered other than by an index. */
  predicate Unwritten(call: Call)
  {
    call.job.ConsoleJob? && !call.phase.Inserting? && call.phase != Failed(Unique)
  }

  lemma UnwrittenStep(s: State, e: Event, c: nat)
    requires c in s.calls && Unwritten(s.calls[c]) && Has(s.db.consoleKeys, s.calls[c].thumbprint)
    ensures c in Apply(s, e).calls && Unwritten(Apply(s, e).calls[c])
  {
  }

  /** A key somebody has is found by the check, and the call is answered there: it never inserts. */
  lemma {:induction false} KnownKeyIsAnswered(s: State, es: seq<Event>, c: nat)
    requires Inv(s) && c in s.calls && Unwritten(s.calls[c]) && Has(s.db.consoleKeys, s.calls[c].thumbprint)
    ensures c in Exec(s, es).calls && Unwritten(Exec(s, es).calls[c])
  {
    if |es| > 0 {
      var front := es[..|es| - 1];
      KnownKeyIsAnswered(s, front, c);
      CallIsTheSame(s, front, c);
      RunKeeps(s, front);
      IdIsForGood(s.db.consoleKeys, Exec(s, front).db.consoleKeys, s.calls[c].thumbprint);
      UnwrittenStep(Exec(s, front), es[|es| - 1], c);
    }
  }

  /** A person's registration of a key, begun at any moment of any run, is bound to be settled by its one retry
      exactly when the person is linked at that moment or the key is already somebody's. */
  lemma SettlesExactly(s: State, c: nat, subject: string, asked: int, thumbprint: string)
    requires Inv(s) && c !in s.calls
    ensures AlwaysSettles(Apply(s, Begin(c, ConsoleJob(subject, asked), thumbprint)), c)
            <==> subject in s.db.links || Has(s.db.consoleKeys, thumbprint)
  {
    var b := Begin(c, ConsoleJob(subject, asked), thumbprint);
    var t := Begun(s, c, ConsoleJob(subject, asked), thumbprint);
    StepKeepsInv(s, b);
    if subject in s.db.links || Has(s.db.consoleKeys, thumbprint) {
      forall es ensures c in Exec(t, es).calls ==> Exec(t, es).calls[c].phase != Failed(Unique) {
        if subject in s.db.links {
          RunKeepsInv(t, es);
          CallIsTheSame(t, es, c);
          assert CallOk(Exec(t, es).db, Exec(t, es).calls[c]);
        } else {
          KnownKeyIsAnswered(t, es, c);
        }
      }
    } else {
      var es := UnlinkedCanLose(t, c);
    }
  }

  // ----- who gets no key -----

  /** The rows as they are refuse the call: a client that is missing, inactive or retired, or that holds the pairing
      scope and has no operator; a linked person who is missing, inactive or the owner, with a new key. */
  ghost predicate Barred(db: Db, call: Call)
  {
    match call.job
    case ClientJob(client, operator, _) =>
      client !in db.clients || !db.clients[client].live || (db.clients[client].pairs && !operator)
    case ConsoleJob(subject, _) =>
      && !Has(db.consoleKeys, call.thumbprint) && subject in db.links
      && var user := db.links[subject];
         user !in db.users || !db.users[user].active || db.users[user].role == "owner"
    case PairJob(_, _) => false
  }

  /** With the reason the rows give. */
  ghost function Reason(db: Db, call: Call): Error
  {
    match call.job
    case ClientJob(client, _, _) =>
      if client !in db.clients then NotFound else if !db.clients[client].live then Invalid else Denied
    case _ => Denied
  }

  predicate GotNothing(call: Call)
  {
    call.phase == Checking(1) || (call.phase.Failed? && call.phase.error in {NotFound, Invalid, Denied, Database})
  }

  lemma BarredStep(s: State, e: Event, c: nat)
    requires c in s.calls && Barred(s.db, s.calls[c]) && GotNothing(s.calls[c])
    ensures c in Apply(s, e).calls && GotNothing(Apply(s, e).calls[c])
    ensures s.calls[c].phase == Checking(1) && e == Run(c) ==>
              Apply(s, e).calls[c].phase == Failed(Reason(s.db, s.calls[c]))
  {
  }

  /** Over every run: a call the rows refuse all the while inserts nothing and is given no key; its own next step
      tells it why. */
  lemma {:induction false} BarredGetNoKey(s: State, es: seq<Event>, c: nat)
    requires c in s.calls && s.calls[c].phase == Checking(1)
    requires forall n :: 0 <= n <= |es| ==> Barred(Exec(s, es[..n]).db, s.calls[c])
    ensures c in Exec(s, es).calls && GotNothing(Exec(s, es).calls[c])
    ensures Exec(s, es).calls[c].phase == Checking(1) ==>
              Apply(Exec(s, es), Run(c)).calls[c].phase == Failed(Reason(Exec(s, es).db, s.calls[c]))
  {
    CallIsTheSame(s, es, c);
    assert es[..|es|] == es;
    if |es| > 0 {
      var front := es[..|es| - 1];
      assert forall n :: 0 <= n <= |front| ==> front[..n] == es[..n];
      BarredGetNoKey(s, front, c);
      CallIsTheSame(s, front, c);
      assert Barred(Exec(s, es[..|front|]).db, s.calls[c]);
      BarredStep(Exec(s, front), es[|es| - 1], c);
    }
    assert Barred(Exec(s, es[..|es|]).db, s.calls[c]);
    BarredStep(Exec(s, es), Run(c), c);
  }

  /** An operator pairs a key with an active person only. */
  lemma {:induction false} PairingNeedsAnActivePerson(s: State, es: seq<Event>, c: nat, user: Owner, thumbprint: string)
    requires c !in s.calls && !(user in s.db.users && s.db.users[user].active)
    ensures var t := Exec(Apply(s, Begin(c, PairJob(user, 0), thumbprint)), es);
            c in t.calls && t.calls[c].phase == Failed(NotFound)
  {
    if |es| > 0 { PairingNeedsAnActivePerson(s, es[..|es| - 1], c, user, thumbprint); }
  }

  // ----- who gets one -----

  lemma ChecksThrough(s: State, c: nat, owner: Owner)
    requires c in s.calls && s.calls[c].phase == Checking(1) && !Barred(s.db, s.calls[c])
    requires IsOwner(s.db, s.calls[c].job, owner) && !Has(KeysOf(s.db, s.calls[c].job), s.calls[c].thumbprint)
    ensures RunCall(s, c) == Move(s, c, Inserting(1, Some(owner)))
  {
  }

  /** A new key of somebody the rows do not refuse, with nobody in between: two steps, and the row is theirs, a
      person's for 30 days. */
  lemma NewKeyIsRegistered(s: State, c: nat, owner: Owner)
    requires c in s.calls && s.calls[c].phase == Checking(1) && !Barred(s.db, s.calls[c])
    requires IsOwner(s.db, s.calls[c].job, owner) && !Has(KeysOf(s.db, s.calls[c].job), s.calls[c].thumbprint)
    ensures var t := RunCall(RunCall(s, c), c);
            var (call, keys) := (s.calls[c], KeysOf(s.db, s.calls[c].job));
            var expiry := if call.job.ClientJob? then None else Some(call.job.asked + 2_592_000_000_000);
            && t.calls == s.calls[c := call.(phase := Returned(keys.nextId))]
            && KeysOf(t.db, call.job).rows == keys.rows[keys.nextId := KeyRow(call.thumbprint, owner, expiry, None)]
            && t.db.links == s.db.links && t.db.users == s.db.users
  {
    ChecksThrough(s, c, owner);
  }

  /** A first pairing with nobody in between enrols the person, an admin under an address made of the subject, and
      the key is theirs. */
  lemma FirstPairingEnrols(s: State, c: nat)
    requires Unlinked(s, c)
    requires forall u :: u in s.db.users ==> s.db.users[u].email != s.calls[c].job.subject + "@vaam.invalid"
    ensures var t := RunCall(RunCall(s, c), c);
            var (call, user, keys) := (s.calls[c], s.db.nextUser, s.db.consoleKeys);
            && t.calls == s.calls[c := call.(phase := Returned(keys.nextId))]
            && t.db.links == s.db.links[call.job.subject := user]
            && t.db.users == s.db.users[user := Person(call.job.subject + "@vaam.invalid", "admin", true)]
            && t.db.consoleKeys.rows ==
               keys.rows[keys.nextId := KeyRow(call.thumbprint, user, Some(call.job.asked + 2_592_000_000_000), None)]
  {
    assert RunCall(s, c) == Move(s, c, Inserting(1, None));
  }

  /** A key already registered to the one who asks, and still good, is answered with its own row at once. */
  lemma KnownKeyIsReturned(s: State, c: nat, owner: Owner, id: nat)
    requires c in s.calls && s.calls[c].phase.Checking? && !Barred(s.db, s.calls[c])
    requires IsOwner(s.db, s.calls[c].job, owner) && Sound(KeysOf(s.db, s.calls[c].job))
    requires var (row, keys) := (KeyRow(s.calls[c].thumbprint, owner, None, None), KeysOf(s.db, s.calls[c].job));
             && id in keys.rows && keys.rows[id].(expiresAt := None) == row
             && (!s.calls[c].job.ClientJob? && keys.rows[id].expiresAt.Some? ==>
                   keys.rows[id].expiresAt.value > s.calls[c].job.asked)
    ensures RunCall(s, c) == Move(s, c, Returned(id))
  {
  }

  /** A revoked key is revoked for good, from the moment it was. */
  lemma RevokedIsForGood(s: State, es: seq<Event>, job: Job, id: nat)
    requires Sound(s.db.clientKeys) && Sound(s.db.consoleKeys) && id in KeysOf(s.db, job).rows
    ensures var e := if job.ClientJob? then RevokeClientKey(id) else RevokeConsoleKey(id);
            var (before, after) := (KeysOf(s.db, job).rows[id], KeysOf(Exec(Apply(s, e), es).db, job));
            && id in after.rows
            && after.rows[id].revokedAt == if before.revokedAt.Some? then before.revokedAt else Some(s.db.now)
  {
    var e := if job.ClientJob? then RevokeClientKey(id) else RevokeConsoleKey(id);
    StepKeeps(s, e);
    KeysNeverChange(Apply(s, e), es, job, id, id);
  }

  // ----- one key, many registrations -----

  /** A call that registers this client key. */
  predicate Registers(call: Call, thumbprint: string)
  {
    call.job.ClientJob? && call.thumbprint == thumbprint
  }

  /** Nothing in this step stands in the way of registering the key for the client: no database failure
      of such a call, the client stays as it is, the key is not revoked, and nobody asks for it for
      another client or without being allowed to. */
  ghost predicate Quiet(s: State, e: Event, client: Owner, now: Client, thumbprint: string)
  {
    match e
    case SetClient(id, becomes) => id == client ==> becomes == now
    case Begin(c, job, h) => job.ClientJob? && h == thumbprint ==> job.client == client && (job.operator || !now.pairs)
    case Break(c, _) => c in s.calls ==> !Registers(s.calls[c], thumbprint)
    case RevokeClientKey(id) => id in s.db.clientKeys.rows ==> s.db.clientKeys.rows[id].thumbprint != thumbprint
    case _ => true
  }

  ghost predicate AllQuiet(s: State, es: seq<Event>, client: Owner, now: Client, thumbprint: string)
  {
    forall n :: 0 <= n < |es| ==> Quiet(Exec(s, es[..n]), es[n], client, now, thumbprint)
  }

  /** Where a registration of the key may stand. */
  ghost predicate CallerOk(keys: Table, call: Call, client: Owner, now: Client)
  {
    && call.job.ClientJob? && call.job.client == client && (call.job.operator || !now.pairs)
    && !call.phase.Failed?
    && (call.phase.Checking? ==>
        call.phase.attempt in {1, 2} && (call.phase.attempt == 2 ==> Has(keys, call.thumbprint)))
    && (call.phase.Inserting? ==> call.phase == Inserting(1, Some(client)))
    && (call.phase.Returned? ==> Has(keys, call.thumbprint) && call.phase.id == IdOf(keys, call.thumbprint))
  }

  ghost predicate RowOk(keys: Table, client: Owner, thumbprint: string)
  {
    Has(keys, thumbprint) ==> var row := keys.rows[IdOf(keys, thumbprint)]; row.owner == client && row.revokedAt.None?
  }

  ghost predicate RaceOk(s: State, client: Owner, now: Client, thumbprint: string)
  {
    && Sound(s.db.clientKeys) && Sound(s.db.consoleKeys)
    && client in s.db.clients && s.db.clients[client] == now && now.live
    && RowOk(s.db.clientKeys, client, thumbprint)
    && forall c :: c in s.calls && Registers(s.calls[c], thumbprint) ==>
      CallerOk(s.db.clientKeys, s.calls[c], client, now)
  }

  lemma CallerKeeps(s: Table, t: Table, call: Call, client: Owner, now: Client)
    requires Sound(t) && Evolves(s, t) && CallerOk(s, call, client, now)
    ensures CallerOk(t, call, client, now)
  {
  }

  lemma CallerRuns(s: State, c: nat, client: Owner, now: Client, thumbprint: string)
    requires RaceOk(s, client, now, thumbprint) && c in s.calls && Registers(s.calls[c], thumbprint)
    ensures CallerOk(RunCall(s, c).db.clientKeys, RunCall(s, c).calls[c], client, now)
    ensures RowOk(RunCall(s, c).db.clientKeys, client, thumbprint)
  {
    AddEvolves(s.db.clientKeys, NewRow(s.calls[c], client));
  }

  lemma OtherRowKeeps(t: Table, row: KeyRow, client: Owner, thumbprint: string)
    requires Sound(t) && RowOk(t, client, thumbprint) && row.thumbprint != thumbprint
    ensures RowOk(Add(t, row), client, thumbprint)
  {
    AddEvolves(t, row);
    AddedOnly(t, row, thumbprint);
    if Has(t, thumbprint) { IdIsForGood(t, Add(t, row), thumbprint); }
  }

  lemma OtherCommitKeeps(db: Db, call: Call, client: Owner, thumbprint: string)
    requires Sound(db.clientKeys) && RowOk(db.clientKeys, client, thumbprint)
    requires call.phase.Inserting? && !Registers(call, thumbprint)
    ensures RowOk(Commit(db, call).clientKeys, client, thumbprint)
  {
    if call.job.ClientJob? {
      OtherRowKeeps(db.clientKeys, NewRow(call, if call.phase.owner.Some? then call.phase.owner.value else db.nextUser),
                    client, thumbprint);
    }
  }

  lemma OtherRevocationKeeps(t: Table, id: nat, time: int, client: Owner, thumbprint: string)
    requires Sound(t) && RowOk(t, client, thumbprint) && (id in t.rows ==> t.rows[id].thumbprint != thumbprint)
    ensures RowOk(Stamp(t, id, time), client, thumbprint)
  {
  }

  /** Any other step leaves the row as it was, or brings in no row for this thumbprint. */
  lemma RowKeeps(s: State, e: Event, client: Owner, now: Client, thumbprint: string)
    requires RaceOk(s, client, now, thumbprint) && Quiet(s, e, client, now, thumbprint)
    requires e.Run? && e.call in s.calls ==> !Registers(s.calls[e.call], thumbprint)
    ensures RowOk(Apply(s, e).db.clientKeys, client, thumbprint)
  {
    match e
    case Run(c) =>
      if c in s.calls && s.calls[c].phase.Inserting? { OtherCommitKeeps(s.db, s.calls[c], client, thumbprint); }
    case Break(c, _) =>
      if c in s.calls && s.calls[c].phase.Inserting? { OtherCommitKeeps(s.db, s.calls[c], client, thumbprint); }
    case RevokeClientKey(id) => OtherRevocationKeeps(s.db.clientKeys, id, s.db.now, client, thumbprint);
    case _ =>
  }

  lemma CallersKeep(s: State, e: Event, client: Owner, now: Client, thumbprint: string, c: nat)
    requires RaceOk(s, client, now, thumbprint) && Quiet(s, e, client, now, thumbprint)
    requires c in Apply(s, e).calls && Registers(Apply(s, e).calls[c], thumbprint)
    ensures CallerOk(Apply(s, e).db.clientKeys, Apply(s, e).calls[c], client, now)
  {
    var t := Apply(s, e);
    StepKeeps(s, e);
    if c in s.calls && t.calls[c] == s.calls[c] {
      CallerKeeps(s.db.clientKeys, t.db.clientKeys, s.calls[c], client, now);
    }
    else if e == Run(c) && c in s.calls { CallerRuns(s, c, client, now, thumbprint); }
  }

  lemma ClientStays(s: State, e: Event, client: Owner, now: Client, thumbprint: string)
    requires Quiet(s, e, client, now, thumbprint) && client in s.db.clients && s.db.clients[client] == now
    ensures client in Apply(s, e).db.clients && Apply(s, e).db.clients[client] == now
  {
  }

  lemma RaceStep(s: State, e: Event, client: Owner, now: Client, thumbprint: string)
    requires RaceOk(s, client, now, thumbprint) && Quiet(s, e, client, now, thumbprint)
    ensures RaceOk(Apply(s, e), client, now, thumbprint)
  {
    var t := Apply(s, e);
    StepKeeps(s, e);
    ClientStays(s, e, client, now, thumbprint);
    if e.Run? && e.call in s.calls && Registers(s.calls[e.call], thumbprint) {
      CallerRuns(s, e.call, client, now, thumbprint);
    } else {
      RowKeeps(s, e, client, now, thumbprint);
    }
    forall c | c in t.calls && Registers(t.calls[c], thumbprint)
      ensures CallerOk(t.db.clientKeys, t.calls[c], client, now)
    {
      CallersKeep(s, e, client, now, thumbprint, c);
    }
  }

  lemma {:induction false} RaceRun(s: State, es: seq<Event>, client: Owner, now: Client, thumbprint: string)
    requires RaceOk(s, client, now, thumbprint) && AllQuiet(s, es, client, now, thumbprint)
    ensures RaceOk(Exec(s, es), client, now, thumbprint)
  {
    if |es| > 0 {
      var front := es[..|es| - 1];
      forall n | 0 <= n < |front| ensures Quiet(Exec(s, front[..n]), front[n], client, now, thumbprint) {
        assert front[..n] == es[..n];
      }
      RaceRun(s, front, client, now, thumbprint);
      assert front == es[..|front|] && Quiet(Exec(s, es[..|front|]), es[|front|], client, now, thumbprint);
      RaceStep(Exec(s, front), es[|es| - 1], client, now, thumbprint);
    }
  }

  /** Any number of registrations of one new key for one live client, in any interleaving with anything
      else: none of them fails, each ends after at most three steps of its own, and all that have
      ended returned the one row there is. */
  lemma AllReturnTheOneRow(s: State, es: seq<Event>, client: Owner, thumbprint: string, c: nat, d: nat)
    requires Start(s) && client in s.db.clients && s.db.clients[client].live && !Has(s.db.clientKeys, thumbprint)
    requires AllQuiet(s, es, client, s.db.clients[client], thumbprint)
    requires c in Exec(s, es).calls && Registers(Exec(s, es).calls[c], thumbprint)
    requires d in Exec(s, es).calls && Registers(Exec(s, es).calls[d], thumbprint)
    ensures var t := Exec(s, es);
            && !t.calls[c].phase.Failed? && (Left(t.calls[c].phase) == 0 <==> t.calls[c].phase.Returned?)
            && Left(t.calls[c].phase) <= 3
            && (Left(t.calls[c].phase) > 0 ==> Left(RunCall(t, c).calls[c].phase) < Left(t.calls[c].phase))
            && (t.calls[c].phase.Returned? && t.calls[d].phase.Returned? ==> t.calls[c].phase.id == t.calls[d].phase.id)
            && (t.calls[c].phase.Returned? ==>
                  var id := t.calls[c].phase.id;
                  && id in t.db.clientKeys.rows && t.db.clientKeys.rows[id].thumbprint == thumbprint
                  && t.db.clientKeys.rows[id].owner == client && t.db.clientKeys.rows[id].revokedAt.None?)
  {
    var now := s.db.clients[client];
    RaceRun(s, es, client, now, thumbprint);
    var t := Exec(s, es);
    assert CallerOk(t.db.clientKeys, t.calls[c], client, now) && CallerOk(t.db.clientKeys, t.calls[d], client, now);
  }

  // ----- why a revocation is one transaction -----

  /** The same protocol with a client key's revocation in two statements: the read, and then the write if the
      row read was not revoked. `seen` is what each revoker read. */
  datatype Split = Split(state: State, seen: map<nat, (nat, KeyRow)>)

  datatype SplitEvent = Whole(event: Event) | ReadRow(revoker: nat, id: nat) | WriteStamp(revoker: nat)

  ghost function ApplySplit(s: Split, e: SplitEvent): Split
  {
    var keys := s.state.db.clientKeys;
    match e
    case Whole(event) => s.(state := Apply(s.state, event))
    case ReadRow(r, id) => if id in keys.rows then s.(seen := s.seen[r := (id, keys.rows[id])]) else s
    case WriteStamp(r) =>
      if r in s.seen && s.seen[r].1.revokedAt.None? && s.seen[r].0 in keys.rows then
        var id := s.seen[r].0;
        var stamped := keys.(rows := keys.rows[id := keys.rows[id].(revokedAt := Some(s.state.db.now))]);
        s.(state := s.state.(db := s.state.db.(clientKeys := stamped)))
      else s
  }

  ghost function ExecSplit(s: Split, es: seq<SplitEvent>): Split
  {
    if |es| == 0 then s else ApplySplit(ExecSplit(s, es[..|es| - 1]), es[|es| - 1])
  }

  /** Without those two statements it is the protocol itself, and a revocation time stays for good. */
  lemma {:induction false} WholeIsTheProtocol(s: Split, es: seq<Event>) returns (fs: seq<SplitEvent>)
    ensures |fs| == |es| && (forall i :: 0 <= i < |es| ==> fs[i] == Whole(es[i]))
            && ExecSplit(s, fs).state == Exec(s.state, es)
  {
    fs := [];
    if |es| > 0 {
      var front := WholeIsTheProtocol(s, es[..|es| - 1]);
      fs := front + [Whole(es[|es| - 1])];
      assert fs[..|fs| - 1] == front;
    }
  }

  lemma SplitSnoc(s: Split, es: seq<SplitEvent>, e: SplitEvent)
    ensures ExecSplit(s, es + [e]) == ApplySplit(ExecSplit(s, es), e)
  {
    assert (es + [e])[..|es + [e]| - 1] == es;
  }

  lemma TwoRead(s: Split, id: nat) returns (es: seq<SplitEvent>)
    requires id in s.state.db.clientKeys.rows
    ensures var t := ExecSplit(s, es);
            && t.state == s.state && 0 in t.seen && 1 in t.seen
            && t.seen[0] == t.seen[1] == (id, s.state.db.clientKeys.rows[id])
  {
    var (a, b, row) := (ReadRow(0, id), ReadRow(1, id), s.state.db.clientKeys.rows[id]);
    assert [a][..0] == [] && [a, b][..1] == [a];
    var one := s.(seen := s.seen[0 := (id, row)]);
    assert ExecSplit(s, [a]) == ApplySplit(s, a) == one;
    assert ExecSplit(s, [a, b]) == ApplySplit(one, b);
    es := [a, b];
  }

  /** In two statements the first revocation time is not safe: from any state with a live key, two revokers
      that both read it leave, one `wait` after the other, a second time in place of the first. */
  lemma SplitRevocationMovesTheTime(s: Split, id: nat, wait: nat) returns (es: seq<SplitEvent>, n: nat)
    requires id in s.state.db.clientKeys.rows && s.state.db.clientKeys.rows[id].revokedAt.None? && wait > 0
    ensures n <= |es| && id in ExecSplit(s, es[..n]).state.db.clientKeys.rows
            && id in ExecSplit(s, es).state.db.clientKeys.rows
    ensures ExecSplit(s, es[..n]).state.db.clientKeys.rows[id].revokedAt == Some(s.state.db.now)
    ensures ExecSplit(s, es).state.db.clientKeys.rows[id].revokedAt == Some(s.state.db.now + wait)
  {
    var read := TwoRead(s, id);
    SplitSnoc(s, read, WriteStamp(0));
    var first := read + [WriteStamp(0)];
    SplitSnoc(s, first, Whole(Tick(wait)));
    var later := first + [Whole(Tick(wait))];
    SplitSnoc(s, later, WriteStamp(1));
    es, n := later + [WriteStamp(1)], |first|;
    assert es[..n] == first;
  }
}

/** `client_keys::register` and `revoke` as the program runs them, others running in between. */
module ClientKeys {
  import opened Options
  import opened KeyTables
  import KeyRace

  datatype Registration = Registered(id: nat) | Rejected(error: KeyRace.Error)

  class ClientKeyStore {
    var clients: map<Owner, KeyRace.Client>
    var keys: Table
    var now: int
    ghost var past: seq<map<Owner, KeyRace.Client>>  // every state of the clients so far; the last is now

    ghost predicate Valid()
      reads this
    {
      Sound(keys) && |past| > 0 && past[|past| - 1] == clients
    }

    /** At some moment since the `n`-th, the client was live and might be given a key by this registrant. */
    ghost predicate AllowedSince(n: nat, client: Owner, operator: bool)
      reads this
    {
      exists i :: n <= i < |past| && client in past[i] && past[i][client].live && (operator || !past[i][client].pairs)
    }

    /** Time passes, clients come and go, and other calls insert and revoke keys. */
    method Interfere()
      requires Valid()
      modifies this
      ensures Valid() && now >= old(now) && Evolves(old(keys), keys) && old(past) <= past
    {
      var steps: nat :| true;
      for i := 0 to steps
        invariant Valid() && now >= old(now) && Evolves(old(keys), keys) && old(past) <= past
      {
        var elapsed: nat, id: nat, row: KeyRow, client: Owner, becomes: KeyRace.Client :| true;
        var gone: bool :| true;
        now, clients := now + elapsed, if gone then clients - {client} else clients[client := becomes];
        past := past + [clients];
        ghost var before := keys;
        StampEvolves(keys, id, now);
        AddEvolves(Stamp(keys, id, now), row);
        keys := Add(Stamp(keys, id, now), row);
        EvolvesOn(before, Stamp(before, id, now), keys);
        EvolvesOn(old(keys), before, keys);
      }
    }

    /** `register` and its retry. It never fails on the index: the second check finds the row the first
        insert lost to. What it returns is this client's row for this key, given while the client was live and
        might have it, and nothing it or anyone else did has changed another row except to revoke it. A refusal
        is for the reason the rows give as it returns. */
    method Register(client: Owner, thumbprint: string, operator: bool) returns (r: Registration)
      requires Valid()
      modifies this
      ensures Valid() && now >= old(now) && Evolves(old(keys), keys)
      ensures r.Rejected? ==> r.error in {KeyRace.NotFound, KeyRace.Invalid, KeyRace.Denied, KeyRace.Conflict}
      ensures r == Rejected(KeyRace.NotFound) ==> client !in clients
      ensures r == Rejected(KeyRace.Invalid) ==> client in clients && !clients[client].live
      ensures r == Rejected(KeyRace.Denied) ==>
                client in clients && clients[client].live && clients[client].pairs && !operator
      ensures r.Registered? ==> AllowedSince(old(|past|) - 1, client, operator)
      ensures r.Registered? ==>
                r.id in keys.rows && keys.rows[r.id].thumbprint == thumbprint && keys.rows[r.id].owner == client
                && keys.rows[r.id].revokedAt.None?
      ensures r == Rejected(KeyRace.Conflict) ==>
                && Has(keys, thumbprint)
                && var row := keys.rows[IdOf(keys, thumbprint)];
                   row.owner != client || row.revokedAt.Some?
    {
      var attempt := 0;
      while true
        invariant Valid() && now >= old(now) && Evolves(old(keys), keys) && old(past) <= past
        invariant 0 <= attempt < 2 && (attempt == 1 ==> Has(keys, thumbprint))
        decreases 2 - attempt
      {
        attempt := attempt + 1;
        ghost var before := keys;
        Interfere();
        EvolvesOn(old(keys), before, keys);
        if attempt == 2 { IdIsForGood(before, keys, thumbprint); }
        if client !in clients { return Rejected(KeyRace.NotFound); }
        if !clients[client].live { return Rejected(KeyRace.Invalid); }
        if !operator && clients[client].pairs { return Rejected(KeyRace.Denied); }
        assert AllowedSince(|past| - 1, client, operator);
        if Has(keys, thumbprint) {
          var id :| id in keys.rows && keys.rows[id].thumbprint == thumbprint;
          var row := keys.rows[id];
          if row.owner != client { return Rejected(KeyRace.Conflict); }
          if row.revokedAt.Some? { return Rejected(KeyRace.Conflict); }
          return Registered(id);
        }
        ghost var (checked, n) := (keys, |past| - 1);
        Interfere();
        assert AllowedSince(n, client, operator);
        EvolvesOn(old(keys), checked, keys);
        if !Has(keys, thumbprint) {
          var (id, row) := (keys.nextId, KeyRow(thumbprint, client, None, None));
          AddEvolves(keys, row);
          EvolvesOn(old(keys), keys, Add(keys, row));
          keys := Add(keys, row);
          return Registered(id);
        }
        if attempt >= 2 { return Rejected(KeyRace.Unique); }
      }
    }

    /** `revoke`: one transaction. The row it answers with is revoked, at the first time anyone did. */
    method Revoke(id: nat) returns (found: bool)
      requires Valid()
      modifies this`keys
      ensures Valid() && Evolves(old(keys), keys) && found == (id in old(keys).rows)
      ensures keys.rows.Keys == old(keys).rows.Keys
      ensures forall i :: i in keys.rows && i != id ==> keys.rows[i] == old(keys).rows[i]
      ensures found ==> keys.rows[id].revokedAt ==
                        if old(keys).rows[id].revokedAt.Some? then old(keys).rows[id].revokedAt else Some(now)
    {
      if id !in keys.rows { return false; }
      StampEvolves(keys, id, now);
      if keys.rows[id].revokedAt.Some? { return true; }
      keys := keys.(rows := keys.rows[id := keys.rows[id].(revokedAt := Some(now))]);
      found := true;
    }
  }
}
