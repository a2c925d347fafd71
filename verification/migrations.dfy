/**
 The migrator (`sms-migrate`): a list of named migrations, a bookkeeping table, an advisory lock held
 by a session, and one transaction per migration.

 A failed statement and a crash are the same thing here: the process ends, its session closes, its
 open transaction is undone and its lock is released. A crash during a commit may find it landed.
 */
module Migrations {
  /** `pre` says whether the migration has an `up.pre.sql`. */
  datatype Migration = Migration(name: string, pre: bool)

  /** The two halves of a migration, as they take effect on the database. */
  datatype Half = Pre(name: string) | Main(name: string)

  function Halves(m: Migration): seq<Half>
  {
    (if m.pre then [Pre(m.name)] else []) + [Main(m.name)]
  }

  /** What the database has been through once these migrations are in: each of their halves once, the
      two of one migration together, in the order of the list. */
  function Effects(ms: seq<Migration>): seq<Half>
  {
    if |ms| == 0 then [] else Effects(ms[..|ms| - 1]) + Halves(ms[|ms| - 1])
  }

  function Names(ms: seq<Migration>): seq<string>
  {
    seq(|ms|, i requires 0 <= i < |ms| => ms[i].name)
  }

  /** Directory names: no two alike. */
  predicate Distinct(ms: seq<Migration>)
  {
    forall i, j :: 0 <= i < j < |ms| ==> ms[i].name != ms[j].name
  }

  lemma EffectsSnoc(ms: seq<Migration>, k: nat)
    requires k < |ms|
    ensures Effects(ms[..k + 1]) == Effects(ms[..k]) + Halves(ms[k])
            && Names(ms[..k + 1]) == Names(ms[..k]) + [ms[k].name]
  {
    assert ms[..k + 1][..k] == ms[..k];
  }

  lemma {:induction false} EffectsComeFromTheList(ms: seq<Migration>, x: nat)
    requires x < |Effects(ms)|
    ensures exists k :: 0 <= k < |ms| && ms[k].name == Effects(ms)[x].name
  {
    if |ms| > 0 {
      var front, last := ms[..|ms| - 1], ms[|ms| - 1];
      if x < |Effects(front)| {
        EffectsComeFromTheList(front, x);
        var k :| 0 <= k < |front| && front[k].name == Effects(front)[x].name;
        assert ms[k].name == Effects(ms)[x].name;
      } else {
        assert Effects(ms)[x] == Halves(last)[x - |Effects(front)|];
        assert last.name == Effects(ms)[x].name;
      }
    }
  }

  lemma {:induction false} EffectsOfPrefix(ms: seq<Migration>, k: nat)
    requires k <= |ms|
    ensures Effects(ms[..k]) <= Effects(ms)
  {
    if k == |ms| {
      assert ms[..k] == ms;
    } else {
      assert ms[..|ms| - 1][..k] == ms[..k];
      EffectsOfPrefix(ms[..|ms| - 1], k);
    }
  }

  /** Where in the database's history a migration begins. */
  function Place(ms: seq<Migration>, k: nat): nat
    requires k <= |ms|
  {
    |Effects(ms[..k])|
  }

  /** Every migration is in whole: at its place its first half, if it has one, and its main half next; the
      one after it begins right there, and the last one ends the history. */
  lemma EveryMigrationIsWhole(ms: seq<Migration>, k: nat)
    requires k < |ms|
    ensures Place(ms, 0) == 0 && Place(ms, |ms|) == |Effects(ms)|
    ensures var at := Place(ms, k);
            && Place(ms, k + 1) == (if ms[k].pre then at + 2 else at + 1) <= |Effects(ms)|
            && (ms[k].pre ==> Effects(ms)[at] == Pre(ms[k].name))
            && Effects(ms)[if ms[k].pre then at + 1 else at] == Main(ms[k].name)
  {
    assert ms[..|ms|] == ms;
    EffectsSnoc(ms, k);
    EffectsOfPrefix(ms, k + 1);
    var at := Place(ms, k);
    assert forall x :: 0 <= x < |Effects(ms[..k + 1])| ==> Effects(ms)[x] == Effects(ms[..k + 1])[x];
    assert Effects(ms[..k + 1])[at] == Halves(ms[k])[0];
  }

  /** No half is in twice. */
  lemma {:induction false} EachHalfOnce(ms: seq<Migration>, x: nat, y: nat)
    requires Distinct(ms) && x < y < |Effects(ms)|
    ensures Effects(ms)[x] != Effects(ms)[y]
  {
    var front, last := ms[..|ms| - 1], ms[|ms| - 1];
    var n := |Effects(front)|;
    assert Distinct(front);
    if y < n {
      EachHalfOnce(front, x, y);
    } else {
      assert Effects(ms)[y] == Halves(last)[y - n];
      if x < n {
        EffectsComeFromTheList(front, x);
      } else {
        assert Effects(ms)[x] == Halves(last)[x - n];
      }
    }
  }

  /** The bookkeeping says what was done, and what was done is a prefix of the list. */
  ghost predicate UpTo(ms: seq<Migration>, recorded: seq<string>, effects: seq<Half>)
  {
    |recorded| <= |ms| && recorded == Names(ms[..|recorded|]) && effects == Effects(ms[..|recorded|])
  }

  lemma RecordedIsBefore(ms: seq<Migration>, recorded: seq<string>, i: nat)
    requires Distinct(ms) && |recorded| <= |ms| && recorded == Names(ms[..|recorded|]) && i < |ms|
    ensures ms[i].name in recorded <==> i < |recorded|
  {
    if i < |recorded| { assert recorded[i] == ms[i].name; }
  }

  class Database {
    var recorded: seq<string>
    var effects: seq<Half>
    var failures: nat  // statements that have failed so far

    method Statement() returns (fails: bool)
      modifies this`failures
      ensures failures == old(failures) + if fails then 1 else 0
    {
      fails :| true;
      if fails { failures := failures + 1; }
    }

    /** One migration in its own transaction: both halves and its row, or nothing. It is applied unless a
        statement fails. */
    method ApplyOne(ms: seq<Migration>, i: nat) returns (applied: bool)
      requires i < |ms| && i == |recorded| && UpTo(ms, recorded, effects)
      modifies this
      ensures UpTo(ms, recorded, effects) && old(recorded) <= recorded && old(effects) <= effects
      ensures |recorded| == i || |recorded| == i + 1
      ensures applied ==> |recorded| == i + 1
      ensures failures == old(failures) + if applied then 0 else 1
    {
      EffectsSnoc(ms, i);
      var (pending, fails) := (effects, false);
      if ms[i].pre {
        fails := Statement();
        if fails { return false; }
        pending := pending + [Pre(ms[i].name)];
      }
      fails := Statement();
      if fails { return false; }
      pending := pending + [Main(ms[i].name)];
      assert pending == effects + Halves(ms[i]);
      var landed: bool :| true;
      fails := Statement();
      if !fails || landed { effects, recorded := pending, recorded + [ms[i].name]; }
      applied := !fails;
    }

    /** `run_migrations`, under the lock; any statement may fail. However it ends, the bookkeeping and
        the schema agree and stand at a prefix of the list; it succeeds exactly when no statement failed, and
        then they stand at all of it. */
    method RunMigrations(ms: seq<Migration>) returns (ok: bool)
      requires Distinct(ms) && UpTo(ms, recorded, effects)
      modifies this
      ensures UpTo(ms, recorded, effects) && old(recorded) <= recorded && old(effects) <= effects
      ensures ok ==> recorded == Names(ms) && effects == Effects(ms)
      ensures ok <==> failures == old(failures)
    {
      for i := 0 to |ms|
        invariant UpTo(ms, recorded, effects) && i <= |recorded|
        invariant old(recorded) <= recorded && old(effects) <= effects && failures == old(failures)
      {
        var fails := Statement();
        if fails { return false; }
        RecordedIsBefore(ms, recorded, i);
        if ms[i].name in recorded { continue; }
        var applied := ApplyOne(ms, i);
        if !applied { return false; }
      }
      assert ms[..|ms|] == ms;
      ok := true;
    }
  }
}

/** Any number of migrators at once, of this release or earlier ones, crashing anywhere. */
module MigratorRace {
  import opened Options
  import opened Migrations

  /** `upTo` is how much of the list a process's own release knows: releases only append. */
  datatype Phase =
    | Waiting                              // for the advisory lock
    | Ensuring                             // the bookkeeping table
    | Looking(at: nat)                     // is this one recorded?
    | Applying(at: nat, done: seq<Half>)   // in the transaction
    | Committing(at: nat, done: seq<Half>) // with its row in the bookkeeping table
    | Unlocking
    | Succeeded
    | Dead

  datatype Process = Process(upTo: nat, phase: Phase)

  datatype State = State(recorded: seq<string>, effects: seq<Half>, lock: Option<nat>, processes: map<nat, Process>)

  datatype Event = Launch(process: nat, upTo: nat) | Run(process: nat) | Crash(process: nat, landed: bool)

  predicate Holds(phase: Phase)
  {
    !phase.Waiting? && !phase.Succeeded? && !phase.Dead?
  }

  function Move(s: State, p: nat, phase: Phase): State
    requires p in s.processes
  {
    s.(processes := s.processes[p := s.processes[p].(phase := phase)])
  }

  /** Both halves and the row, or nothing. The row's name is a primary key. */
  function Land(s: State, name: string, done: seq<Half>): State
  {
    if name in s.recorded then s else s.(recorded := s.recorded + [name], effects := s.effects + done)
  }

  function Next(m: Migration, done: seq<Half>): Half
  {
    if m.pre && done == [] then Pre(m.name) else Main(m.name)
  }

  function RunProcess(ms: seq<Migration>, s: State, p: nat): State
    requires p in s.processes
  {
    var upTo := s.processes[p].upTo;
    match s.processes[p].phase
    case Waiting => if s.lock.None? then Move(s.(lock := Some(p)), p, Ensuring) else s
    case Ensuring => Move(s, p, Looking(0))
    case Looking(i) =>
      if i >= upTo || i >= |ms| then Move(s, p, Unlocking)
      else if ms[i].name in s.recorded then Move(s, p, Looking(i + 1))
      else Move(s, p, Applying(i, []))
    case Applying(i, done) =>
      if i >= |ms| then s
      else if done == Halves(ms[i]) then Move(s, p, Committing(i, done))
      else Move(s, p, Applying(i, done + [Next(ms[i], done)]))
    case Committing(i, done) =>
      if i >= |ms| then s
      else if ms[i].name in s.recorded then Move(s.(lock := None), p, Dead)  // the key is taken: an error
      else Move(Land(s, ms[i].name, done), p, Looking(i + 1))
    case Unlocking => Move(s.(lock := None), p, Succeeded)
    case _ => s
  }

  function CrashProcess(ms: seq<Migration>, s: State, p: nat, landed: bool): State
    requires p in s.processes
  {
    var phase := s.processes[p].phase;
    if phase.Succeeded? || phase.Dead? then s
    else
      var t := if landed && phase.Committing? && phase.at < |ms| then Land(s, ms[phase.at].name, phase.done) else s;
      Move(if s.lock == Some(p) then t.(lock := None) else t, p, Dead)
  }

  function Apply(ms: seq<Migration>, s: State, e: Event): State
  {
    match e
    case Launch(p, upTo) => if p in s.processes then s else s.(processes := s.processes[p := Process(upTo, Waiting)])
    case Run(p) => if p in s.processes then RunProcess(ms, s, p) else s
    case Crash(p, landed) => if p in s.processes then CrashProcess(ms, s, p, landed) else s
  }

  function Exec(ms: seq<Migration>, s: State, es: seq<Event>): State
  {
    if |es| == 0 then s else Apply(ms, Exec(ms, s, es[..|es| - 1]), es[|es| - 1])
  }

  const EMPTY := State([], [], None, map[])

  ghost predicate PhaseOk(ms: seq<Migration>, s: State, process: Process)
  {
    var k := |s.recorded|;
    match process.phase
    case Looking(i) => i <= k
    case Applying(i, done) => i == k < |ms| && done <= Halves(ms[i])
    case Committing(i, done) => i == k < |ms| && done == Halves(ms[i])
    case Unlocking => k >= process.upTo || k == |ms|
    case Succeeded => k >= process.upTo || k == |ms|
    case _ => true
  }

  ghost predicate Inv(ms: seq<Migration>, s: State)
  {
    && UpTo(ms, s.recorded, s.effects)
    && (forall p :: p in s.processes ==> (Holds(s.processes[p].phase) <==> s.lock == Some(p)))
    && (s.lock.Some? ==> s.lock.value in s.processes)
    && forall p :: p in s.processes ==> PhaseOk(ms, s, s.processes[p])
  }

  lemma HalvesInOrder(m: Migration, done: seq<Half>)
    requires done <= Halves(m) && done != Halves(m)
    ensures done + [Next(m, done)] <= Halves(m)
  {
  }

  lemma LandingKeepsUpTo(ms: seq<Migration>, s: State)
    requires Distinct(ms) && UpTo(ms, s.recorded, s.effects) && |s.recorded| < |ms|
    ensures var m := ms[|s.recorded|];
            var t := Land(s, m.name, Halves(m)); UpTo(ms, t.recorded, t.effects) && |t.recorded| == |s.recorded| + 1
  {
    RecordedIsBefore(ms, s.recorded, |s.recorded|);
    EffectsSnoc(ms, |s.recorded|);
  }

  /** One process moves. Only the one with the lock changes the database, so no other is in a phase that
      depends on how far it is. */
  lemma OneMoves(ms: seq<Migration>, s: State, t: State, p: nat, x: Process)
    requires Inv(ms, s) && UpTo(ms, t.recorded, t.effects) && |s.recorded| <= |t.recorded|
    requires t.processes == s.processes[p := x] && PhaseOk(ms, t, x)
    requires t.lock == (if Holds(x.phase) then Some(p) else if s.lock == Some(p) then None else s.lock)
    requires Holds(x.phase) ==> s.lock.None? || s.lock == Some(p)
    requires |s.recorded| < |t.recorded| ==> s.lock == Some(p)
    ensures Inv(ms, t)
  {
  }

  lemma LookKeepsInv(ms: seq<Migration>, s: State, p: nat)
    requires Distinct(ms) && Inv(ms, s) && p in s.processes && s.processes[p].phase.Looking?
    ensures Inv(ms, RunProcess(ms, s, p)) && RunProcess(ms, s, p).recorded == s.recorded
  {
    var i := s.processes[p].phase.at;
    assert PhaseOk(ms, s, s.processes[p]);
    if i < |ms| { RecordedIsBefore(ms, s.recorded, i); }
    var t := RunProcess(ms, s, p);
    OneMoves(ms, s, t, p, t.processes[p]);
  }

  lemma CommitKeepsInv(ms: seq<Migration>, s: State, p: nat)
    requires Distinct(ms) && Inv(ms, s) && p in s.processes && s.processes[p].phase.Committing?
    ensures Inv(ms, RunProcess(ms, s, p)) && s.recorded <= RunProcess(ms, s, p).recorded
  {
    assert PhaseOk(ms, s, s.processes[p]);
    RecordedIsBefore(ms, s.recorded, s.processes[p].phase.at);
    LandingKeepsUpTo(ms, s);
    var t := RunProcess(ms, s, p);
    OneMoves(ms, s, t, p, t.processes[p]);
  }

  lemma RunStepKeepsInv(ms: seq<Migration>, s: State, p: nat)
    requires Distinct(ms) && Inv(ms, s) && p in s.processes
    ensures Inv(ms, RunProcess(ms, s, p)) && s.recorded <= RunProcess(ms, s, p).recorded
  {
    var t := RunProcess(ms, s, p);
    assert PhaseOk(ms, s, s.processes[p]);
    match s.processes[p].phase
    case Looking(i) => LookKeepsInv(ms, s, p);
    case Committing(i, done) => CommitKeepsInv(ms, s, p);
    case Applying(i, done) =>
      if done != Halves(ms[i]) { HalvesInOrder(ms[i], done); }
      OneMoves(ms, s, t, p, t.processes[p]);
    case Succeeded =>
    case Dead =>
    case _ => if t != s { OneMoves(ms, s, t, p, t.processes[p]); }
  }

  lemma CrashKeepsInv(ms: seq<Migration>, s: State, p: nat, landed: bool)
    requires Distinct(ms) && Inv(ms, s) && p in s.processes
    ensures Inv(ms, CrashProcess(ms, s, p, landed)) && s.recorded <= CrashProcess(ms, s, p, landed).recorded
  {
    var t := CrashProcess(ms, s, p, landed);
    assert PhaseOk(ms, s, s.processes[p]);
    if s.processes[p].phase.Committing? { LandingKeepsUpTo(ms, s); }
    if t != s { OneMoves(ms, s, t, p, t.processes[p]); }
  }

  lemma StepKeepsInv(ms: seq<Migration>, s: State, e: Event)
    requires Distinct(ms) && Inv(ms, s)
    ensures Inv(ms, Apply(ms, s, e)) && s.recorded <= Apply(ms, s, e).recorded
  {
    match e
    case Launch(p, upTo) => if p !in s.processes { OneMoves(ms, s, Apply(ms, s, e), p, Process(upTo, Waiting)); }
    case Run(p) => if p in s.processes { RunStepKeepsInv(ms, s, p); }
    case Crash(p, landed) => if p in s.processes { CrashKeepsInv(ms, s, p, landed); }
  }

  lemma {:induction false} RunKeepsInv(ms: seq<Migration>, es: seq<Event>)
    requires Distinct(ms)
    ensures Inv(ms, Exec(ms, EMPTY, es))
  {
    if |es| > 0 {
      RunKeepsInv(ms, es[..|es| - 1]);
      StepKeepsInv(ms, Exec(ms, EMPTY, es[..|es| - 1]), es[|es| - 1]);
    }
  }

  /** From an empty database, over every interleaving of migrators that crash anywhere: what is recorded
      is what was applied, both are a prefix of the list, each migration's halves are in together and
      once; a process that reports success leaves everything its release knows applied. */
  lemma AlwaysAPrefix(ms: seq<Migration>, es: seq<Event>, p: nat)
    requires Distinct(ms)
    ensures var t := Exec(ms, EMPTY, es);
            && UpTo(ms, t.recorded, t.effects)
            && (p in t.processes && t.processes[p].phase.Succeeded? ==>
                  |t.recorded| >= t.processes[p].upTo || (t.recorded == Names(ms) && t.effects == Effects(ms)))
  {
    RunKeepsInv(ms, es);
    var t := Exec(ms, EMPTY, es);
    if |t.recorded| == |ms| { assert ms[..|t.recorded|] == ms; }
  }

  /** How many of its own steps a migrator still has: it takes the lock, looks at each migration its release knows,
      applies it in up to four, and lets go. */
  function Left(ms: seq<Migration>, process: Process): int
  {
    var n := if process.upTo < |ms| then process.upTo else |ms|;
    match process.phase
    case Waiting => 5 * n + 4
    case Ensuring => 5 * n + 3
    case Looking(i) => if i < n then 5 * (n - i) + 2 else 2
    case Applying(i, done) => 5 * (n - i) + 1 - |done|
    case Committing(i, _) => 5 * (n - i) - 2
    case Unlocking => 1
    case _ => 0
  }

  /** What a process is applying is of its own release. */
  ghost predicate OwnRelease(process: Process)
  {
    process.phase.Applying? || process.phase.Committing? ==> process.phase.at < process.upTo
  }

  lemma {:induction false} RunKeepsRelease(ms: seq<Migration>, es: seq<Event>, p: nat)
    requires p in Exec(ms, EMPTY, es).processes
    ensures OwnRelease(Exec(ms, EMPTY, es).processes[p])
  {
    if |es| > 0 && p in Exec(ms, EMPTY, es[..|es| - 1]).processes { RunKeepsRelease(ms, es[..|es| - 1], p); }
  }

  lemma StepAdvances(ms: seq<Migration>, s: State, p: nat)
    requires Distinct(ms) && Inv(ms, s) && p in s.processes && OwnRelease(s.processes[p])
    requires !s.processes[p].phase.Succeeded? && !s.processes[p].phase.Dead? && (s.lock.None? || s.lock == Some(p))
    ensures var t := RunProcess(ms, s, p);
            && p in t.processes && !t.processes[p].phase.Dead?
            && 0 <= Left(ms, t.processes[p]) < Left(ms, s.processes[p])
  {
    assert PhaseOk(ms, s, s.processes[p]);
    match s.processes[p].phase
    case Applying(i, done) => if done != Halves(ms[i]) { HalvesInOrder(ms[i], done); }
    case Committing(i, done) => RecordedIsBefore(ms, s.recorded, i);
    case _ =>
  }

  /** Nobody is stuck: in any state of any run, a step of a migrator that has the lock, or finds it free, takes it
      nearer its success; none of its own steps fails. */
  lemma EveryStepAdvances(ms: seq<Migration>, es: seq<Event>, p: nat)
    requires Distinct(ms) && p in Exec(ms, EMPTY, es).processes
    ensures var s := Exec(ms, EMPTY, es);
            var t := RunProcess(ms, s, p);
            !s.processes[p].phase.Succeeded? && !s.processes[p].phase.Dead? && (s.lock.None? || s.lock == Some(p)) ==>
              && p in t.processes && !t.processes[p].phase.Dead?
              && 0 <= Left(ms, t.processes[p]) < Left(ms, s.processes[p])
  {
    RunKeepsInv(ms, es);
    RunKeepsRelease(ms, es, p);
    var s := Exec(ms, EMPTY, es);
    if !s.processes[p].phase.Succeeded? && !s.processes[p].phase.Dead? && (s.lock.None? || s.lock == Some(p)) {
      StepAdvances(ms, s, p);
    }
  }

  /** Nothing applied is ever undone: what was recorded at any moment of the run is recorded at its end. */
  lemma {:induction false} NothingIsUndone(ms: seq<Migration>, es: seq<Event>, n: nat)
    requires Distinct(ms) && n <= |es|
    ensures Exec(ms, EMPTY, es[..n]).recorded <= Exec(ms, EMPTY, es).recorded
  {
    if n == |es| {
      assert es[..n] == es;
    } else {
      var front := es[..|es| - 1];
      assert front[..n] == es[..n];
      NothingIsUndone(ms, front, n);
      RunKeepsInv(ms, front);
      StepKeepsInv(ms, Exec(ms, EMPTY, front), es[|es| - 1]);
    }
  }
}
