/**
 Publishing the signing keys (`Keyring`) and reloading them for an unknown `kid` (`key_for`).

 `Keyring` swaps a key set and a signing key under two locks, one after the other. `KeyReload` is the
 double-checked, rate-limited, single-flight reload under a mutex.
 */
module Keyring {
  import opened Options

  type Kid = string

  /** A published key. One with no `kid`, or no usable RSA components, is listed but cannot verify. */
  datatype Jwk = Jwk(kid: Option<Kid>, usable: bool)

  /** The kids a token may be signed under and verify. */
  function Verifiable(jwks: seq<Jwk>): (kids: set<Kid>)
    ensures forall k :: k in kids <==> Jwk(Some(k), true) in jwks
  {
    set i | 0 <= i < |jwks| && jwks[i].kid.Some? && jwks[i].usable :: jwks[i].kid.value
  }

  datatype Ring = Ring(jwks: seq<Jwk>, signing: Kid)
  datatype Publication = Publication(jwks: seq<Jwk>, signing: Kid)

  /** A token minted now, under the signing key, verifies now against the published set. */
  predicate Verifies(r: Ring)
  {
    r.signing in Verifiable(r.jwks)
  }

  function WriteKeys(r: Ring, p: Publication): Ring { r.(jwks := p.jwks) }

  function WriteSigner(r: Ring, p: Publication): Ring { r.(signing := p.signing) }

  /** Every state the ring is in from now on, if publishes do not overlap: key set first. */
  function States(r: Ring, ps: seq<Publication>): seq<Ring>
    decreases ps
  {
    if ps == [] then [r]
    else
      var between := WriteKeys(r, ps[0]);
      [r, between] + States(WriteSigner(between, ps[0]), ps[1..])
  }

  /** Each new key set lists the kid that signs when it is published and the one about to sign. */
  predicate Covers(signing: Kid, ps: seq<Publication>)
    decreases ps
  {
    ps == [] || (signing in Verifiable(ps[0].jwks) && ps[0].signing in Verifiable(ps[0].jwks)
                 && Covers(ps[0].signing, ps[1..]))
  }

  ghost predicate AllVerify(states: seq<Ring>)
  {
    forall i :: 0 <= i < |states| ==> Verifies(states[i])
  }

  lemma AllVerifyCons(a: Ring, b: Ring, rest: seq<Ring>)
    ensures AllVerify([a, b] + rest) <==> Verifies(a) && Verifies(b) && AllVerify(rest)
  {
    var all := [a, b] + rest;
    assert all[0] == a && all[1] == b && all[2..] == rest;
    if AllVerify(all) {
      forall i | 0 <= i < |rest| ensures Verifies(rest[i]) { assert rest[i] == all[i + 2]; }
    }
  }

  /** Publishes that do not overlap: a token verifies in every state, the one between the two writes
      included, exactly when each key set lists both the kid signing before it and the kid after. */
  lemma {:induction false} KeySetFirstIsSafe(r: Ring, ps: seq<Publication>)
    requires Verifies(r)
    ensures AllVerify(States(r, ps)) <==> Covers(r.signing, ps)
    decreases ps
  {
    if ps != [] {
      var between := WriteKeys(r, ps[0]);
      var next := WriteSigner(between, ps[0]);
      var rest := States(next, ps[1..]);
      AllVerifyCons(r, between, rest);
      assert rest[0] == next;
      if Verifies(next) { KeySetFirstIsSafe(next, ps[1..]); }
    }
  }

  /** Every state in the other order: signing key first. */
  function SignerFirst(r: Ring, ps: seq<Publication>): seq<Ring>
    decreases ps
  {
    if ps == [] then [r]
    else
      var between := WriteSigner(r, ps[0]);
      [r, between] + SignerFirst(WriteKeys(between, ps[0]), ps[1..])
  }

  /** Each kid about to sign is listed by the key set published before its own, and by its own. */
  predicate Announced(jwks: seq<Jwk>, ps: seq<Publication>)
    decreases ps
  {
    ps == [] || (ps[0].signing in Verifiable(jwks) && ps[0].signing in Verifiable(ps[0].jwks)
                 && Announced(ps[0].jwks, ps[1..]))
  }

  /** What the other order would take: every rotation announced one publish ahead. A kid that is new with its
      own key set has a state in which a fresh token does not verify, whatever the sets list. */
  lemma {:induction false} SignerFirstNeedsMore(r: Ring, ps: seq<Publication>)
    requires Verifies(r)
    ensures AllVerify(SignerFirst(r, ps)) <==> Announced(r.jwks, ps)
    decreases ps
  {
    if ps != [] {
      var between := WriteSigner(r, ps[0]);
      var next := WriteKeys(between, ps[0]);
      var rest := SignerFirst(next, ps[1..]);
      AllVerifyCons(r, between, rest);
      assert rest[0] == next;
      if Verifies(next) { SignerFirstNeedsMore(next, ps[1..]); }
    }
  }

  // ----- two call sites may publish at once -----

  datatype Write = Keys(publisher: nat) | Signer(publisher: nat)

  /** A ring and which publishers have written their key set. */
  datatype Shared = Shared(ring: Ring, written: set<nat>)

  function ApplyWrite(s: Shared, ps: seq<Publication>, w: Write): Shared
  {
    match w
    case Keys(i) => if i < |ps| then Shared(WriteKeys(s.ring, ps[i]), s.written + {i}) else s
    case Signer(i) => if i < |ps| && i in s.written then s.(ring := WriteSigner(s.ring, ps[i])) else s
  }

  function Interleave(s: Shared, ps: seq<Publication>, ws: seq<Write>): Shared
  {
    if ws == [] then s else ApplyWrite(Interleave(s, ps, ws[..|ws| - 1]), ps, ws[|ws| - 1])
  }

  /** Every key set lists every kid that may be signing while it is the published one. */
  predicate ListsAll(r: Ring, ps: seq<Publication>)
  {
    forall i :: 0 <= i < |ps| ==>
      r.signing in Verifiable(ps[i].jwks) && forall j :: 0 <= j < |ps| ==> ps[j].signing in Verifiable(ps[i].jwks)
  }

  ghost predicate SafeEveryWay(r: Ring, ps: seq<Publication>)
  {
    forall ws :: Verifies(Interleave(Shared(r, {}), ps, ws).ring)
  }

  lemma {:induction false} OverlapStaysListed(r: Ring, ps: seq<Publication>, ws: seq<Write>)
    requires Verifies(r) && ListsAll(r, ps)
    ensures var s := Interleave(Shared(r, {}), ps, ws);
            && (s.ring.signing == r.signing || exists j :: 0 <= j < |ps| && ps[j].signing == s.ring.signing)
            && ((s.ring == r && s.written == {}) || exists i :: 0 <= i < |ps| && ps[i].jwks == s.ring.jwks)
            && Verifies(s.ring)
  {
    if ws != [] {
      OverlapStaysListed(r, ps, ws[..|ws| - 1]);
      var s := Interleave(Shared(r, {}), ps, ws[..|ws| - 1]);
      var t := Interleave(Shared(r, {}), ps, ws);
      match ws[|ws| - 1]
      case Keys(i) => if i < |ps| { assert ps[i].jwks == t.ring.jwks; }
      case Signer(i) => if i < |ps| && i in s.written { assert ps[i].signing == t.ring.signing; }
    }
  }

  lemma TwoWrites(s: Shared, ps: seq<Publication>, a: Write, b: Write, c: Write)
    ensures Interleave(s, ps, [a]) == ApplyWrite(s, ps, a)
    ensures Interleave(s, ps, [a, b]) == ApplyWrite(ApplyWrite(s, ps, a), ps, b)
    ensures Interleave(s, ps, [a, b, c]) == ApplyWrite(ApplyWrite(ApplyWrite(s, ps, a), ps, b), ps, c)
  {
    assert [a][..0] == [] && [a, b][..1] == [a] && [a, b, c][..2] == [a, b];
  }

  /** The periodic refresh and a forced reload may overlap, and then covering one's own signing kid is
      not enough: every interleaving is safe exactly when every key set lists the kid signing at the
      start and the kid of every publish under way. */
  lemma OverlapIsSafeExactly(r: Ring, ps: seq<Publication>)
    requires Verifies(r)
    ensures SafeEveryWay(r, ps) <==> ListsAll(r, ps)
  {
    var s := Shared(r, {});
    if ListsAll(r, ps) {
      forall ws ensures Verifies(Interleave(s, ps, ws).ring) { OverlapStaysListed(r, ps, ws); }
    }
    if SafeEveryWay(r, ps) {
      forall i | 0 <= i < |ps|
        ensures r.signing in Verifiable(ps[i].jwks)
        ensures forall j :: 0 <= j < |ps| ==> ps[j].signing in Verifiable(ps[i].jwks)
      {
        TwoWrites(s, ps, Keys(i), Keys(i), Keys(i));
        assert Verifies(Interleave(s, ps, [Keys(i)]).ring);
        forall j | 0 <= j < |ps| ensures ps[j].signing in Verifiable(ps[i].jwks) {
          TwoWrites(s, ps, Keys(j), Signer(j), Keys(i));
          assert Verifies(Interleave(s, ps, [Keys(j), Signer(j), Keys(i)]).ring);
        }
      }
    }
  }

  /** Two overlapping publishes, each listing its own kid and the one signing before it, can leave a
      signing kid that is not published. */
  lemma OverlapCanBreak() returns (r: Ring, ps: seq<Publication>)
    ensures Verifies(r) && |ps| == 2 && Covers(r.signing, [ps[0]]) && Covers(r.signing, [ps[1]])
    ensures !SafeEveryWay(r, ps)
  {
    var a, b, c := Jwk(Some("a"), true), Jwk(Some("b"), true), Jwk(Some("c"), true);
    r := Ring([a], "a");
    ps := [Publication([a, b], "b"), Publication([a, c], "c")];
    assert r.jwks[0].kid.value == "a";
    assert ps[0].jwks[0].kid.value == "a" && ps[0].jwks[1].kid.value == "b";
    assert ps[1].jwks[0].kid.value == "a" && ps[1].jwks[1].kid.value == "c";
    assert "b" !in Verifiable(ps[1].jwks);
    OverlapIsSafeExactly(r, ps);
  }

  /** The ring as the program holds it: two fields, written in the one safe order. */
  class OpKeyring {
    var tokens: Kid
    var jwks: seq<Jwk>
    ghost var seen: seq<Ring>  // every state a reader could have met

    ghost function Current(): Ring
      reads this
    {
      Ring(jwks, tokens)
    }

    constructor (tokens: Kid, jwks: seq<Jwk>)
      ensures Current() == Ring(jwks, tokens) && seen == [Ring(jwks, tokens)]
    {
      this.tokens, this.jwks, this.seen := tokens, jwks, [Ring(jwks, tokens)];
    }

    /** Key set first, signing key second. A reader meets two new states and no others, and every state so far
        verifies exactly when it did before and the new key set lists both the old kid and the new. */
    method Publish(tokens: Kid, jwks: seq<Jwk>)
      modifies this
      ensures Current() == Ring(jwks, tokens)
      ensures seen == old(seen) + [Ring(jwks, old(this.tokens)), Ring(jwks, tokens)]
      ensures AllVerify(seen) <==>
              AllVerify(old(seen)) && old(this.tokens) in Verifiable(jwks) && tokens in Verifiable(jwks)
    {
      this.jwks := jwks;
      seen := seen + [Current()];
      this.tokens := tokens;
      seen := seen + [Current()];
      var before, between, after := old(seen), Ring(jwks, old(this.tokens)), Ring(jwks, tokens);
      assert seen == before + [between, after];
      AllVerifySnoc(before, between, after);
    }
  }

  lemma AllVerifySnoc(states: seq<Ring>, a: Ring, b: Ring)
    ensures AllVerify(states + [a, b]) <==> AllVerify(states) && Verifies(a) && Verifies(b)
  {
    var all := states + [a, b];
    assert all[|states|] == a && all[|states| + 1] == b;
    if AllVerify(all) {
      forall i | 0 <= i < |states| ensures Verifies(states[i]) { assert states[i] == all[i]; }
    }
  }
}

/**
 `OpBearerVerifier::key_for`, with any number of callers, the periodic refresh, failing and stalling
 reloads, and callers that go away while they wait.

 Time passes anywhere. Under the lock a stated lag bounds the code before the reload, how late a deadline that
 has passed is noticed, and the code after it. Times are milliseconds.
 */
module KeyReload {
  import opened Options

  type Kid = string

  const RELOAD_TIMEOUT := 2_000

  datatype Call =
    | Looking(kid: Kid)                // the unlocked look
    | Waiting(kid: Kid)                // for the lock
    | LookingAgain(kid: Kid)           // holds the lock
    | Judging(kid: Kid)                // holds the lock: is it too soon for a reload?
    | Reloading(kid: Kid, since: int)  // holds the lock
    | Concluding(kid: Kid, since: int) // holds the lock
    | Done(kid: Kid, found: bool)
    | Gone(kid: Kid)                   // the request was dropped

  /** `minReload` is the verifier's own interval, and `lag` bounds how late each thing under the lock is done.
      `starts` is a history variable: when each forced reload began. */
  datatype State = State(minReload: nat, lag: nat, now: int, known: set<Kid>, holder: Option<nat>, heldSince: int,
                         lastForced: Option<int>, calls: map<nat, Call>, starts: seq<int>)

  datatype Event =
    | Tick(elapsed: nat)
    | Begin(call: nat, kid: Kid)
    | Run(call: nat)
    | Loaded(call: nat, keys: set<Kid>)
    | NotLoaded(call: nat)          // the reload failed, or its deadline passed
    | Drop(call: nat)
    | Refreshed(keys: set<Kid>)     // the periodic refresh publishes

  predicate Holds(call: Call)
  {
    call.LookingAgain? || call.Judging? || call.Reloading? || call.Concluding?
  }

  function Move(s: State, c: nat, call: Call): State
  {
    s.(calls := s.calls[c := call])
  }

  /** Return and release the lock. */
  function Return(s: State, c: nat, found: bool): State
    requires c in s.calls
  {
    Move(s.(holder := None), c, Done(s.calls[c].kid, found))
  }

  function RunCall(s: State, c: nat): State
    requires c in s.calls
  {
    match s.calls[c]
    case Looking(kid) => Move(s, c, if kid in s.known then Done(kid, true) else Waiting(kid))
    case Waiting(kid) =>
      if s.holder.None? then Move(s.(holder := Some(c), heldSince := s.now), c, LookingAgain(kid)) else s
    case LookingAgain(kid) => if kid in s.known then Return(s, c, true) else Move(s, c, Judging(kid))
    case Judging(kid) =>
      if s.lastForced.Some? && s.now - s.lastForced.value < s.minReload then Return(s, c, false)
      else Move(s.(lastForced := Some(s.now), starts := s.starts + [s.now]), c, Reloading(kid, s.now))
    case Concluding(kid, _) => Return(s, c, kid in s.known)
    case _ => s
  }

  /** Until when a call may hold the lock where it stands. */
  function Latest(s: State, call: Call): int
  {
    match call
    case Reloading(_, since) => since + RELOAD_TIMEOUT + s.lag
    case Concluding(_, since) => since + RELOAD_TIMEOUT + 2 * s.lag
    case _ => s.heldSince + s.lag
  }

  /** How far the clock may go. */
  predicate MayPass(s: State, elapsed: nat)
  {
    match s.holder
    case None => true
    case Some(c) => c in s.calls && s.now + elapsed <= Latest(s, s.calls[c])
  }

  function Apply(s: State, e: Event): State
  {
    match e
    case Tick(d) => if MayPass(s, d) then s.(now := s.now + d) else s
    case Begin(c, kid) => if c in s.calls then s else Move(s, c, Looking(kid))
    case Run(c) => if c in s.calls then RunCall(s, c) else s
    case Loaded(c, keys) =>
      if c in s.calls && s.calls[c].Reloading?
      then Move(s.(known := keys), c, Concluding(s.calls[c].kid, s.calls[c].since)) else s
    case NotLoaded(c) =>
      if c in s.calls && s.calls[c].Reloading? then Move(s, c, Concluding(s.calls[c].kid, s.calls[c].since)) else s
    case Drop(c) =>
      if c !in s.calls || !(s.calls[c].Waiting? || s.calls[c].Reloading?) then s
      else Move(if s.holder == Some(c) then s.(holder := None) else s, c, Gone(s.calls[c].kid))
    case Refreshed(keys) => s.(known := keys)
  }

  function Exec(s: State, es: seq<Event>): State
  {
    if es == [] then s else Apply(Exec(s, es[..|es| - 1]), es[|es| - 1])
  }

  ghost predicate Start(s: State)
  {
    s.holder.None? && s.lastForced.None? && s.calls == map[] && s.starts == []
  }

  /** Reload starts at least the interval apart. */
  ghost predicate Spaced(starts: seq<int>, interval: nat)
  {
    forall i :: 0 < i < |starts| ==> starts[i] - starts[i - 1] >= interval
  }

  ghost predicate LockOk(s: State)
  {
    && (forall c :: c in s.calls && Holds(s.calls[c]) ==> s.holder == Some(c))
    && (s.holder.Some? ==>
          && s.holder.value in s.calls && Holds(s.calls[s.holder.value])
          && s.heldSince <= s.now <= Latest(s, s.calls[s.holder.value])
          && (s.calls[s.holder.value].Reloading? || s.calls[s.holder.value].Concluding? ==>
                s.heldSince <= s.calls[s.holder.value].since <= s.heldSince + s.lag))
  }

  ghost predicate Inv(s: State)
  {
    && LockOk(s) && Spaced(s.starts, s.minReload)
    && s.lastForced == (if s.starts == [] then None else Some(s.starts[|s.starts| - 1]))
    && (s.starts != [] ==> s.starts[|s.starts| - 1] <= s.now)
  }

  /** A step that starts no reload and leaves the clock where the lock allows. */
  lemma NoReloadKeepsInv(s: State, t: State)
    requires Inv(s) && LockOk(t) && t.lastForced == s.lastForced && t.starts == s.starts && s.now <= t.now
    requires t.minReload == s.minReload
    ensures Inv(t)
  {
  }

  lemma ReloadKeepsInv(s: State, c: nat)
    requires Inv(s) && c in s.calls && s.calls[c].Judging? && RunCall(s, c).starts != s.starts
    ensures Inv(RunCall(s, c))
  {
  }

  lemma RunStepKeepsInv(s: State, c: nat)
    requires Inv(s) && c in s.calls
    ensures Inv(RunCall(s, c))
  {
    var t := RunCall(s, c);
    match s.calls[c]
    case Judging(kid) => if t.starts != s.starts { ReloadKeepsInv(s, c); } else { NoReloadKeepsInv(s, t); }
    case _ => NoReloadKeepsInv(s, t);
  }

  lemma OtherKeepsLock(s: State, e: Event)
    requires Inv(s) && !e.Run?
    ensures LockOk(Apply(s, e))
  {
  }

  lemma StepKeepsInv(s: State, e: Event)
    requires Inv(s)
    ensures Inv(Apply(s, e))
  {
    match e
    case Run(c) => if c in s.calls { RunStepKeepsInv(s, c); }
    case _ =>
      OtherKeepsLock(s, e);
      NoReloadKeepsInv(s, Apply(s, e));
  }

  lemma StepKeepsConfig(s: State, e: Event)
    ensures Apply(s, e).minReload == s.minReload && Apply(s, e).lag == s.lag
  {
  }

  lemma {:induction false} RunKeepsInv(s: State, es: seq<Event>)
    requires Start(s)
    ensures Inv(Exec(s, es)) && Exec(s, es).minReload == s.minReload && Exec(s, es).lag == s.lag
  {
    if es != [] {
      RunKeepsInv(s, es[..|es| - 1]);
      StepKeepsInv(Exec(s, es[..|es| - 1]), es[|es| - 1]);
      StepKeepsConfig(Exec(s, es[..|es| - 1]), es[|es| - 1]);
    }
  }

  /** Single flight and a deadline: at most one forced reload is out at a time, and the lock every other
      unknown `kid` waits for is never held longer than the reload timeout and three lags: before it, in
      noticing it, and after it. */
  lemma SingleFlight(s: State, es: seq<Event>, c: nat, d: nat)
    requires Start(s)
    ensures var t := Exec(s, es);
            && (c in t.calls && d in t.calls && t.calls[c].Reloading? && t.calls[d].Reloading? ==> c == d)
            && (t.holder.Some? ==> t.now - t.heldSince <= 2_000 + 3 * s.lag)
  {
    RunKeepsInv(s, es);
  }

  // ----- the rate -----

  function StartsWithin(starts: seq<int>, from: int, span: nat): nat
  {
    if starts == [] then 0
    else
      var last := starts[|starts| - 1];
      StartsWithin(starts[..|starts| - 1], from, span) + if from <= last <= from + span then 1 else 0
  }

  lemma {:induction false} SpacedStartsAreFew(starts: seq<int>, from: int, span: nat, interval: nat)
    requires Spaced(starts, interval)
    ensures StartsWithin(starts, from, span) * interval <= span + interval
    ensures starts != [] && starts[|starts| - 1] < from ==> StartsWithin(starts, from, span) == 0
    ensures starts != [] && starts[|starts| - 1] >= from ==>
              StartsWithin(starts, from, span) * interval <= starts[|starts| - 1] - from + interval
  {
    if starts != [] {
      var front := starts[..|starts| - 1];
      assert Spaced(front, interval);
      SpacedStartsAreFew(front, from, span, interval);
      var k := StartsWithin(front, from, span);
      assert (k + 1) * interval == k * interval + interval;
    }
  }

  lemma CancelFactor(a: nat, b: nat, n: nat)
    ensures a * n < b * n ==> a < b
  {
    if a >= b { assert (a - b) * n >= 0; }
  }

  lemma FewIsFloor(k: nat, span: nat, interval: nat)
    requires interval > 0 && k * interval <= span + interval
    ensures k <= span / interval + 1
  {
    var q := span / interval;
    assert span < q * interval + interval;
    assert k * interval < (q + 2) * interval;
    CancelFactor(k, q + 2, interval);
  }

  /** A flood of invented kids costs at most one reload per interval, whatever the interval: no more than
      floor(span / interval) + 1 forced reloads begin in any span. */
  lemma ReloadsAreRateLimited(s: State, es: seq<Event>, from: int, span: nat)
    requires Start(s)
    ensures Spaced(Exec(s, es).starts, s.minReload)
    ensures s.minReload > 0 ==> StartsWithin(Exec(s, es).starts, from, span) <= span / s.minReload + 1
  {
    RunKeepsInv(s, es);
    SpacedStartsAreFew(Exec(s, es).starts, from, span, s.minReload);
    if s.minReload > 0 { FewIsFloor(StartsWithin(Exec(s, es).starts, from, span), span, s.minReload); }
  }

  // ----- those who queued -----

  /** Whether event `e` in state `s` publishes keys: a refresh, or a reload under way that came back. */
  predicate Publishes(s: State, e: Event)
  {
    e.Refreshed? || (e.Loaded? && e.call in s.calls && s.calls[e.call].Reloading?)
  }

  /** The keys the last publish of the run brought, or those it began with. */
  function LastPublished(s: State, es: seq<Event>): set<Kid>
  {
    if es == [] then s.known
    else if Publishes(Exec(s, es[..|es| - 1]), es[|es| - 1]) then es[|es| - 1].keys
    else LastPublished(s, es[..|es| - 1])
  }

  lemma {:induction false} KnownIsPublished(s: State, es: seq<Event>)
    ensures Exec(s, es).known == LastPublished(s, es)
  {
    if es != [] { KnownIsPublished(s, es[..|es| - 1]); }
  }

  lemma ReloadedStep(s: State, e: Event, c: nat, keys: set<Kid>)
    requires Inv(s) && c in s.calls && !e.Refreshed?
    requires s.calls[c].Concluding? ==> s.known == keys
    requires s.calls[c].Concluding? || s.calls[c] == Done(s.calls[c].kid, s.calls[c].kid in keys)
    ensures var t := Apply(s, e);
            && c in t.calls && t.calls[c].kid == s.calls[c].kid
            && (t.calls[c].Concluding? ==> t.known == keys)
            && (t.calls[c].Concluding? || t.calls[c] == Done(t.calls[c].kid, t.calls[c].kid in keys))
  {
  }

  /** A reload that came back publishes what it loaded: in every run, unless the periodic refresh publishes
      before it returns, the caller that forced it returns with its key exactly when the key was loaded. */
  lemma {:induction false} LoaderGetsItsKey(s: State, es: seq<Event>, c: nat, keys: set<Kid>, fs: seq<Event>)
    requires Start(s) && c in Exec(s, es).calls && Exec(s, es).calls[c].Reloading?
    requires forall i :: 0 <= i < |fs| ==> !fs[i].Refreshed?
    ensures var (t, u) := (Exec(s, es), Exec(Apply(Exec(s, es), Loaded(c, keys)), fs));
            var kid := t.calls[c].kid;
            && c in u.calls && u.calls[c].kid == kid && (u.calls[c].Concluding? ==> u.known == keys)
            && (u.calls[c].Concluding? || u.calls[c] == Done(kid, kid in keys))
  {
    var loaded := Apply(Exec(s, es), Loaded(c, keys));
    if fs == [] {
    } else {
      var front := fs[..|fs| - 1];
      LoaderGetsItsKey(s, es, c, keys, front);
      RunOnKeepsInv(s, es, Loaded(c, keys), front);
      ReloadedStep(Exec(loaded, front), fs[|fs| - 1], c, keys);
    }
  }

  lemma {:induction false} RunOnKeepsInv(s: State, es: seq<Event>, e: Event, fs: seq<Event>)
    requires Start(s)
    ensures Inv(Exec(Apply(Exec(s, es), e), fs))
  {
    var t := Apply(Exec(s, es), e);
    if fs == [] {
      RunKeepsInv(s, es);
      StepKeepsInv(Exec(s, es), e);
    } else {
      RunOnKeepsInv(s, es, e, fs[..|fs| - 1]);
      StepKeepsInv(Exec(t, fs[..|fs| - 1]), fs[|fs| - 1]);
    }
  }

  lemma QueuedCallerOneStep(s: State, e: Event, c: nat, kid: Kid)
    requires kid in s.known && c in s.calls
    requires s.calls[c] in {Waiting(kid), LookingAgain(kid), Done(kid, true), Gone(kid)}
    requires e.Loaded? || e.Refreshed? ==> kid in e.keys
    ensures c in Apply(s, e).calls && kid in Apply(s, e).known
    ensures Apply(s, e).calls[c] in {Waiting(kid), LookingAgain(kid), Done(kid, true), Gone(kid)}
  {
  }

  lemma {:induction false} QueuedCallerStep(s: State, es: seq<Event>, c: nat, kid: Kid)
    requires c in s.calls && s.calls[c] == Waiting(kid) && kid in s.known
    requires forall i :: 0 <= i < |es| && (es[i].Loaded? || es[i].Refreshed?) ==> kid in es[i].keys
    ensures var t := Exec(s, es);
            && c in t.calls && kid in t.known
            && t.calls[c] in {Waiting(kid), LookingAgain(kid), Done(kid, true), Gone(kid)}
  {
    if es != [] {
      QueuedCallerStep(s, es[..|es| - 1], c, kid);
      QueuedCallerOneStep(Exec(s, es[..|es| - 1]), es[|es| - 1], c, kid);
    }
  }

  /** Whoever was queued when a reload brought the key in, and comes back at all, comes back with it,
      unless a later reload or refresh brings keys without it. */
  lemma QueuedCallersGetTheKey(s: State, es: seq<Event>, loader: nat, keys: set<Kid>, c: nat, kid: Kid)
    requires c in s.calls && s.calls[c] == Waiting(kid) && kid in keys
    requires loader in s.calls && s.calls[loader].Reloading?
    requires forall i :: 0 <= i < |es| && (es[i].Loaded? || es[i].Refreshed?) ==> kid in es[i].keys
    ensures var t := Exec(Apply(s, Loaded(loader, keys)), es);
            c in t.calls && t.calls[c] in {Waiting(kid), LookingAgain(kid), Done(kid, true), Gone(kid)}
  {
    QueuedCallerStep(Apply(s, Loaded(loader, keys)), es, c, kid);
  }

  /** A key that is known is found at the first look, whoever holds the lock. */
  lemma KnownKeyDoesNotWait(s: State, c: nat, kid: Kid)
    requires c !in s.calls && kid in s.known
    ensures Apply(Apply(s, Begin(c, kid)), Run(c)) == s.(calls := s.calls[c := Done(kid, true)])
  {
    assert Apply(s, Begin(c, kid)) == Move(s, c, Looking(kid));
  }

  /** How many of its own steps a call still has, its reload apart. */
  function Steps(call: Call): nat
  {
    match call
    case Looking(_) => 6
    case Waiting(_) => 5
    case LookingAgain(_) => 4
    case Judging(_) => 3
    case Reloading(_, _) => 2
    case Concluding(_, _) => 1
    case _ => 0
  }

  /** Nobody is stuck: a step takes a call nearer its answer unless somebody else holds the lock or its reload
      is out, which coming back or failing takes it nearer too. */
  lemma EveryStepAdvances(s: State, c: nat, keys: set<Kid>)
    requires Inv(s) && c in s.calls && Steps(s.calls[c]) > 0
    ensures var (ran, loaded, failed) := (Apply(s, Run(c)), Apply(s, Loaded(c, keys)), Apply(s, NotLoaded(c)));
            && c in ran.calls && c in loaded.calls && c in failed.calls
            && (if s.calls[c].Reloading?
                then Steps(loaded.calls[c]) < Steps(s.calls[c]) && Steps(failed.calls[c]) < Steps(s.calls[c])
                else Steps(ran.calls[c]) < Steps(s.calls[c]) || (s.calls[c].Waiting? && s.holder.Some?))
  {
  }

  /** After the first `n` events, since the lock was taken, the kid is unknown; from there on only the periodic
      refresh can have changed the keys. */
  ghost predicate LookedUnknown(s: State, es: seq<Event>, n: nat, kid: Kid)
  {
    && n <= |es|
    && var (w, t) := (Exec(s, es[..n]), Exec(s, es));
       && t.heldSince <= w.now <= t.now && kid !in w.known
       && ((forall m :: n <= m < |es| ==> !es[m].Refreshed?) ==> w.known == t.known)
  }

  lemma WhileJudging(s: State, e: Event, c: nat)
    requires Inv(s) && c in s.calls && s.calls[c].Judging?
    requires c in Apply(s, e).calls && Apply(s, e).calls[c].Judging?
    ensures Apply(s, e).now >= s.now && Apply(s, e).heldSince == s.heldSince && Apply(s, e).calls[c] == s.calls[c]
    ensures !e.Refreshed? ==> Apply(s, e).known == s.known
  {
  }

  lemma BeginsJudging(s: State, e: Event, c: nat)
    requires Inv(s) && !(c in s.calls && s.calls[c].Judging?) && c in Apply(s, e).calls && Apply(s, e).calls[c].Judging?
    ensures Apply(s, e).heldSince <= s.now == Apply(s, e).now
    ensures Apply(s, e).known == s.known && Apply(s, e).calls[c].kid !in s.known
    ensures !e.Refreshed?
  {
  }

  lemma {:induction false} JudgedAsItLooked(s: State, es: seq<Event>, c: nat) returns (n: nat)
    requires Start(s) && c in Exec(s, es).calls && Exec(s, es).calls[c].Judging?
    ensures LookedUnknown(s, es, n, Exec(s, es).calls[c].kid)
  {
    var front := es[..|es| - 1];
    var f := Exec(s, front);
    RunKeepsInv(s, front);
    if c in f.calls && f.calls[c].Judging? {
      n := JudgedAsItLooked(s, front, c);
      WhileJudging(f, es[|es| - 1], c);
      assert front[..n] == es[..n];
      assert forall m :: n <= m < |front| ==> front[m] == es[m];
    } else {
      n := |front|;
      BeginsJudging(f, es[|es| - 1], c);
    }
  }

  /** The step that answers: of the keys as they are, or a refusal because a reload would be too soon. */
  lemma AnswerStep(s: State, e: Event, c: nat)
    requires Inv(s) && Recent(s) && c in s.calls && !s.calls[c].Done?
    requires c in Apply(s, e).calls && Apply(s, e).calls[c].Done?
    ensures var (call, found) := (s.calls[c], Apply(s, e).calls[c].found);
            && Apply(s, e).calls[c].kid == call.kid
            && (if call.Judging? then !found else found == (call.kid in s.known))
            && (!found ==>
                  && s.starts != [] && s.starts[|s.starts| - 1] <= s.now
                  && (RELOAD_TIMEOUT + 2 * s.lag < s.minReload ==> s.now - s.starts[|s.starts| - 1] < s.minReload))
  {
    assert e == Run(c);
  }

  /** What a call returns is true as it returns it, or, where it gives up because a reload is too soon, as it
      looked under the lock, at most a lag before, which is the same unless the periodic refresh published in
      between. Where the interval outlasts a reload, it gives up on an unknown kid only within
      the interval of a forced reload, its own included; in any case only after one. */
  lemma AnswersAreTrue(s: State, es: seq<Event>, e: Event, c: nat) returns (n: nat)
    requires Start(s)
    requires var (t, u) := (Exec(s, es), Apply(Exec(s, es), e));
             c in t.calls && !t.calls[c].Done? && c in u.calls && u.calls[c].Done?
    ensures n <= |es| && Exec(s, es[..n]).now <= Exec(s, es).now <= Exec(s, es[..n]).now + s.lag
    ensures var (t, u) := (Exec(s, es), Apply(Exec(s, es), e));
            var kid := t.calls[c].kid;
            && u.calls[c] == Done(kid, kid in Exec(s, es[..n]).known)
            && (u.calls[c].found || !t.calls[c].Judging? ==> n == |es|)
            && ((forall m :: n <= m < |es| ==> !es[m].Refreshed?) ==> u.calls[c] == Done(kid, kid in t.known))
            && (!u.calls[c].found ==>
                  && t.starts != [] && t.starts[|t.starts| - 1] <= t.now
                  && (RELOAD_TIMEOUT + 2 * s.lag < s.minReload ==> t.now - t.starts[|t.starts| - 1] < s.minReload))
  {
    RunKeepsInv(s, es);
    RunKeepsDeadline(s, es);
    AnswerStep(Exec(s, es), e, c);
    if Exec(s, es).calls[c].Judging? {
      n := JudgedAsItLooked(s, es, c);
    } else {
      n := |es|;
      assert es[..n] == es;
    }
  }

  /** Under the lock after a reload began, it is the last that did. */
  ghost predicate Recent(s: State)
  {
    forall c :: c in s.calls && (s.calls[c].Reloading? || s.calls[c].Concluding?) ==>
      s.starts != [] && s.calls[c].since == s.starts[|s.starts| - 1]
  }

  lemma StepKeepsDeadline(s: State, e: Event)
    requires Inv(s) && Recent(s)
    ensures Recent(Apply(s, e))
  {
  }

  lemma {:induction false} RunKeepsDeadline(s: State, es: seq<Event>)
    requires Start(s)
    ensures Recent(Exec(s, es))
  {
    if es != [] {
      RunKeepsDeadline(s, es[..|es| - 1]);
      RunKeepsInv(s, es[..|es| - 1]);
      StepKeepsDeadline(Exec(s, es[..|es| - 1]), es[|es| - 1]);
    }
  }
}
