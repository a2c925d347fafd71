/**
 The two limiters in front of signing in (`login.rs`) and of `/token` (`token_rate_limit.rs`), over a
 store of token buckets.

 A bucket that has never been drawn on is full. Times are microseconds of a clock that never runs
 backwards; a rate is tokens per microsecond; token counts are reals, so rounding plays no part.
 */
module TokenBuckets {
  datatype Config = Config(burst: nat, refill: real)
  datatype Bucket = Bucket(tokens: real, at: int)
  type Store = map<string, Bucket>

  predicate Sane(c: Config) { c.refill >= 0.0 }

  function Min(a: real, b: real): real { if a <= b then a else b }

  /** What the bucket holds at a time. */
  function Level(s: Store, key: string, c: Config, now: int): real
  {
    if key in s then Min(c.burst as real, s[key].tokens + c.refill * (now - s[key].at) as real) else c.burst as real
  }

  predicate Allows(s: Store, key: string, c: Config, now: int)
  {
    Level(s, key, c, now) >= 1.0
  }

  /** Refill, and take one if there is one. */
  function Consume(s: Store, key: string, c: Config, now: int): Store
  {
    var level := Level(s, key, c, now);
    s[key := Bucket(if level >= 1.0 then level - 1.0 else level, now)]
  }

  /** A bucket in order at a time: not from the future, and neither overdrawn nor overfull. */
  ghost predicate InOrder(s: Store, key: string, c: Config, now: int)
  {
    key in s ==> s[key].at <= now && 0.0 <= s[key].tokens <= c.burst as real
  }

  lemma RefillAdds(c: Config, s: int, t: int, u: int)
    ensures c.refill * (u - s) as real == c.refill * (t - s) as real + c.refill * (u - t) as real
  {
    assert (u - s) as real == (t - s) as real + (u - t) as real;
  }

  lemma RefillIsNotNegative(c: Config, s: int, t: int)
    requires Sane(c) && s <= t
    ensures c.refill * (t - s) as real >= 0.0
  {
  }

  /** Time only fills a bucket, and no faster than its rate. */
  lemma LevelOverTime(s: Store, key: string, c: Config, t: int, u: int)
    requires Sane(c) && InOrder(s, key, c, t) && t <= u
    ensures 0.0 <= Level(s, key, c, t) <= Level(s, key, c, u) <= c.burst as real
    ensures Level(s, key, c, u) <= Level(s, key, c, t) + c.refill * (u - t) as real
  {
    RefillIsNotNegative(c, t, u);
    if key in s {
      RefillAdds(c, s[key].at, t, u);
      RefillIsNotNegative(c, s[key].at, t);
    }
  }

  lemma ConsumeTakesOne(s: Store, key: string, c: Config, now: int)
    requires Sane(c) && InOrder(s, key, c, now)
    ensures InOrder(Consume(s, key, c, now), key, c, now)
    ensures Level(Consume(s, key, c, now), key, c, now) ==
            Level(s, key, c, now) - if Allows(s, key, c, now) then 1.0 else 0.0
  {
    LevelOverTime(s, key, c, now, now);
    var t := Consume(s, key, c, now);
    assert c.refill * (now - t[key].at) as real == 0.0;
  }

  lemma OtherBucketsStay(s: Store, key: string, c: Config, now: int, other: string, d: Config, t: int)
    requires other != key
    ensures Level(Consume(s, key, c, now), other, d, t) == Level(s, other, d, t)
    ensures InOrder(Consume(s, key, c, now), other, d, t) <==> InOrder(s, other, d, t)
  {
  }

  // ----- how much a bucket gives over a span -----

  function Later(a: int, b: int): int { if a <= b then b else a }

  /** `taken` tokens went out since `from`: what is left and what went out come to no more than a full
      bucket and what has run in since. */
  ghost predicate Accounted(s: Store, key: string, c: Config, from: int, now: int, taken: nat)
  {
    && InOrder(s, key, c, now)
    && (now < from ==> taken == 0)
    && Level(s, key, c, now) + taken as real <= c.burst as real + c.refill * (Later(now, from) - from) as real
  }

  lemma AccountedOverTime(s: Store, key: string, c: Config, from: int, t: int, u: int, taken: nat)
    requires Sane(c) && Accounted(s, key, c, from, t, taken) && t <= u
    ensures Accounted(s, key, c, from, u, taken)
  {
    LevelOverTime(s, key, c, t, u);
    if t >= from {
      RefillAdds(c, from, t, u);
    } else {
      RefillIsNotNegative(c, from, Later(u, from));
    }
  }

  lemma AccountedOverTake(s: Store, key: string, c: Config, from: int, now: int, taken: nat)
    requires Sane(c) && Accounted(s, key, c, from, now, taken)
    ensures Accounted(Consume(s, key, c, now), key, c, from, now,
                      if now >= from && Allows(s, key, c, now) then taken + 1 else taken)
  {
    ConsumeTakesOne(s, key, c, now);
  }

  lemma AccountedAtFirst(s: Store, key: string, c: Config, from: int, now: int)
    requires Sane(c) && InOrder(s, key, c, now)
    ensures Accounted(s, key, c, from, now, 0)
  {
    LevelOverTime(s, key, c, now, now);
    RefillIsNotNegative(c, from, Later(now, from));
  }

  /** The most a bucket gives over a span: what it holds when full, and what runs in. */
  ghost function Most(c: Config, from: int, to: int): real
  {
    c.burst as real + c.refill * (to - from) as real
  }

  lemma AccountedIsBounded(s: Store, key: string, c: Config, from: int, now: int, to: int, taken: nat)
    requires Sane(c) && Accounted(s, key, c, from, now, taken) && from <= to && now <= to
    ensures taken as real <= Most(c, from, to)
  {
    AccountedOverTime(s, key, c, from, now, to, taken);
    LevelOverTime(s, key, c, to, to);
  }
}

module EmailKeys {
  import opened Text

  const MAX_EMAIL_KEY_BYTES := 254

  /** How many bytes of UTF-8 a character takes. */
  function Width(c: char): (w: nat)
    ensures 1 <= w <= 4
  {
    var n := c as int;
    if n < 0x80 then 1 else if n < 0x800 then 2 else if n < 0x1_0000 then 3 else 4
  }

  function Size(s: string): nat
  {
    if |s| == 0 then 0 else Size(s[..|s| - 1]) + Width(s[|s| - 1])
  }

  /** `is_char_boundary`. */
  predicate Boundary(s: string, end: nat)
  {
    exists n :: 0 <= n <= |s| && Size(s[..n]) == end
  }

  lemma {:induction false} LongerIsLarger(s: string, m: nat, n: nat)
    requires m < n <= |s|
    ensures Size(s[..m]) < Size(s[..n])
  {
    assert s[..n][..n - 1] == s[..n - 1];
    if m < n - 1 { LongerIsLarger(s, m, n - 1); }
  }

  /** The longest run of whole characters, from the start, that fits. */
  ghost predicate LongestThatFits(s: string, n: nat, max: nat)
  {
    n <= |s| && Size(s[..n]) <= max && forall m :: n < m <= |s| ==> Size(s[..m]) > max
  }

  /** How many characters of a normalised address its key keeps. */
  method Truncate(s: string) returns (kept: string)
    ensures kept <= s && LongestThatFits(s, |kept|, 254)
  {
    assert s[..|s|] == s;
    if Size(s) <= MAX_EMAIL_KEY_BYTES { return s; }
    var end: nat := MAX_EMAIL_KEY_BYTES;
    assert Size(s[..0]) == 0;
    while !Boundary(s, end)
      invariant 0 <= end <= MAX_EMAIL_KEY_BYTES
      invariant forall m :: 0 <= m <= |s| && Size(s[..m]) <= MAX_EMAIL_KEY_BYTES ==> Size(s[..m]) <= end
      decreases end
    {
      assert end != 0;
      end := end - 1;
    }
    var n :| 0 <= n <= |s| && Size(s[..n]) == end;
    forall m | n < m <= |s| ensures Size(s[..m]) > MAX_EMAIL_KEY_BYTES { LongerIsLarger(s, n, m); }
    kept := s[..n];
  }

  ghost function Kept(s: string): (n: nat)
    ensures LongestThatFits(s, n, MAX_EMAIL_KEY_BYTES)
  {
    Shrink(s, |s|)
  }

  ghost function Shrink(s: string, n: nat): (m: nat)
    requires n <= |s| && forall k :: n < k <= |s| ==> Size(s[..k]) > MAX_EMAIL_KEY_BYTES
    ensures LongestThatFits(s, m, MAX_EMAIL_KEY_BYTES)
  {
    if Size(s[..n]) <= MAX_EMAIL_KEY_BYTES then n else Shrink(s, n - 1)
  }

  lemma OnlyOneFits(s: string, m: nat, n: nat, max: nat)
    requires LongestThatFits(s, m, max) && LongestThatFits(s, n, max)
    ensures m == n
  {
  }

  /** `email_key`. `lower` is Unicode lowercasing, which is not part of this model. */
  ghost function EmailKey(lower: string -> string, email: string): string
  {
    var normalised := lower(Trim(email));
    "login-email:" + normalised[..Kept(normalised)]
  }

  lemma ShortIsKept(s: string)
    requires Size(s) <= 254
    ensures Kept(s) == |s|
  {
    assert s[..|s|] == s;
    OnlyOneFits(s, Kept(s), |s|, MAX_EMAIL_KEY_BYTES);
  }

  /** Spaces around an address do not matter, nor does what lowercasing does away with; otherwise addresses of up
      to 254 bytes have one key each. */
  lemma KeysAreAddresses(lower: string -> string, a: string, b: string, before: string, after: string)
    requires Blank(before) && Blank(after)
    ensures EmailKey(lower, before + a + after) == EmailKey(lower, a)
    ensures lower(Trim(a)) == lower(Trim(b)) ==> EmailKey(lower, a) == EmailKey(lower, b)
    ensures Size(lower(Trim(a))) <= 254 && Size(lower(Trim(b))) <= 254 ==>
              (EmailKey(lower, a) == EmailKey(lower, b) <==> lower(Trim(a)) == lower(Trim(b)))
  {
    TrimIgnoresEdges(before, a, after);
    var (x, y) := (lower(Trim(a)), lower(Trim(b)));
    if Size(x) <= 254 && Size(y) <= 254 {
      ShortIsKept(x);
      ShortIsKept(y);
      assert x[..|x|] == x && y[..|y|] == y;
      assert EmailKey(lower, a)[12..] == x && EmailKey(lower, b)[12..] == y;
    }
  }

  method KeyOf(lower: string -> string, email: string) returns (key: string)
    ensures key == EmailKey(lower, email)
  {
    var normalised := lower(Trim(email));
    var kept := Truncate(normalised);
    OnlyOneFits(normalised, |kept|, Kept(normalised), MAX_EMAIL_KEY_BYTES);
    key := "login-email:" + kept;
  }
}

/** `Limiter::admit`: the address's own bucket first, then the one every sign-in shares. */
module LoginLimiter {
  import opened TokenBuckets
  import opened EmailKeys

  const AGGREGATE_KEY := "login-aggregate"

  datatype Limits = Limits(perEmail: Config, aggregate: Config, lower: string -> string)
  datatype Admission = Allowed | Throttled | Unavailable

  /** One sign-in. Either call to the store may fail, which leaves the store as it was. */
  datatype Attempt = Attempt(email: string, now: int, firstFails: bool, secondFails: bool)

  ghost function Key(l: Limits, a: Attempt): string { EmailKey(l.lower, a.email) }

  /** The address's own bucket lets it through to the shared one. */
  ghost predicate Reaches(l: Limits, s: Store, a: Attempt)
  {
    !a.firstFails && Allows(s, Key(l, a), l.perEmail, a.now)
  }

  ghost function AfterFirst(l: Limits, s: Store, a: Attempt): Store
  {
    if a.firstFails then s else Consume(s, Key(l, a), l.perEmail, a.now)
  }

  ghost function After(l: Limits, s: Store, a: Attempt): Store
  {
    if Reaches(l, s, a) && !a.secondFails
    then Consume(AfterFirst(l, s, a), AGGREGATE_KEY, l.aggregate, a.now) else AfterFirst(l, s, a)
  }

  /** It takes a token every other sign-in could have had. */
  ghost predicate Spends(l: Limits, s: Store, a: Attempt)
  {
    Reaches(l, s, a) && !a.secondFails && Allows(AfterFirst(l, s, a), AGGREGATE_KEY, l.aggregate, a.now)
  }

  ghost function Outcome(l: Limits, s: Store, a: Attempt): Admission
  {
    if a.firstFails then Unavailable
    else if !Reaches(l, s, a) then Throttled
    else if a.secondFails then Unavailable
    else if Spends(l, s, a) then Allowed else Throttled
  }

  lemma SharedIsNoAddress(l: Limits, email: string)
    ensures EmailKey(l.lower, email) != AGGREGATE_KEY
  {
    assert EmailKey(l.lower, email)[6] == 'e' && AGGREGATE_KEY[6] == 'a';
  }

  class Limiter {
    var store: Store
    const limits: Limits

    constructor (limits: Limits)
      ensures this.limits == limits && store == map[]
    {
      this.limits, this.store := limits, map[];
    }

    /** The address's own bucket decides first, and only then the shared one; a store that cannot answer lets nobody
        in. An address that is throttled takes nothing anybody else could have had. */
    method Admit(a: Attempt) returns (admission: Admission)
      modifies this`store
      ensures store == After(limits, old(store), a) && admission == Outcome(limits, old(store), a)
      ensures var own := Level(old(store), EmailKey(limits.lower, a.email), limits.perEmail, a.now);
              var shared := Level(old(store), AGGREGATE_KEY, limits.aggregate, a.now);
              && (admission.Allowed? <==> own >= 1.0 && shared >= 1.0 && !a.firstFails && !a.secondFails)
              && (admission.Unavailable? <==> a.firstFails || (own >= 1.0 && a.secondFails))
      ensures forall k :: k in store && k != EmailKey(limits.lower, a.email) && k != AGGREGATE_KEY ==>
                k in old(store) && store[k] == old(store)[k]
      ensures Level(old(store), EmailKey(limits.lower, a.email), limits.perEmail, a.now) < 1.0 || admission.Unavailable?
              ==> Level(store, AGGREGATE_KEY, limits.aggregate, a.now)
                  == Level(old(store), AGGREGATE_KEY, limits.aggregate, a.now)
    {
      SharedIsNoAddress(limits, a.email);
      var key := KeyOf(limits.lower, a.email);
      var buckets := [(key, limits.perEmail, a.firstFails), (AGGREGATE_KEY, limits.aggregate, a.secondFails)];
      for i := 0 to 2
        invariant i == 0 ==> store == old(store)
        invariant i == 1 ==> Reaches(limits, old(store), a) && store == AfterFirst(limits, old(store), a)
        invariant i == 2 ==> Spends(limits, old(store), a) && store == After(limits, old(store), a)
      {
        var (bucket, config, fails) := buckets[i];
        if fails { return Unavailable; }
        var allowed := Allows(store, bucket, config, a.now);
        store := Consume(store, bucket, config, a.now);
        if !allowed { return Throttled; }
      }
      admission := Allowed;
    }
  }
}

/**
 Any number of sign-ins at once. Each draws on its address's own bucket and later on the shared one; in
 between others run, and either call to the store may fail.
 */
module LoginRace {
  import opened Sets
  import opened TokenBuckets
  import opened EmailKeys
  import opened LoginLimiter

  /** Where a sign-in stands, under the key of its address, and when it drew its own token and the shared one. */
  datatype SignIn =
    | Asking(key: string)
    | Refused(key: string)
    | Waiting(key: string, drew: int)
    | Lost(key: string, drew: int)  // its own token is gone, the shared one it did not get
    | Spent(key: string, drew: int, at: int)

  datatype State = State(now: int, store: Store, signIns: map<nat, SignIn>)

  datatype Event =
    | Tick(elapsed: nat)
    | Begin(call: nat, email: string)
    | First(call: nat, fails: bool)
    | Second(call: nat, fails: bool)

  function Move(s: State, c: nat, to: SignIn): State { s.(signIns := s.signIns[c := to]) }

  function DrawOwn(l: Limits, s: State, c: nat, key: string, fails: bool): State
  {
    if fails then Move(s, c, Refused(key))
    else
      Move(s.(store := Consume(s.store, key, l.perEmail, s.now)), c,
           if Allows(s.store, key, l.perEmail, s.now) then Waiting(key, s.now) else Refused(key))
  }

  function DrawShared(l: Limits, s: State, c: nat, key: string, drew: int, fails: bool): State
  {
    if fails then Move(s, c, Lost(key, drew))
    else
      Move(s.(store := Consume(s.store, AGGREGATE_KEY, l.aggregate, s.now)), c,
           if Allows(s.store, AGGREGATE_KEY, l.aggregate, s.now) then Spent(key, drew, s.now) else Lost(key, drew))
  }

  ghost function Apply(l: Limits, s: State, e: Event): State
  {
    match e
    case Tick(d) => s.(now := s.now + d)
    case Begin(c, email) => if c in s.signIns then s else Move(s, c, Asking(EmailKey(l.lower, email)))
    case First(c, fails) =>
      if c in s.signIns && s.signIns[c].Asking? then DrawOwn(l, s, c, s.signIns[c].key, fails) else s
    case Second(c, fails) =>
      if c in s.signIns && s.signIns[c].Waiting? then DrawShared(l, s, c, s.signIns[c].key, s.signIns[c].drew, fails)
      else s
  }

  ghost function Exec(l: Limits, s: State, es: seq<Event>): State
  {
    if |es| == 0 then s else Apply(l, Exec(l, s, es[..|es| - 1]), es[|es| - 1])
  }

  /** One sign-in run through with nothing in between is `admit`. */
  lemma AdmitIsARun(l: Limits, s: State, c: nat, a: Attempt)
    requires c !in s.signIns && a.now == s.now
    ensures var t := Apply(l, Apply(l, Apply(l, s, Begin(c, a.email)), First(c, a.firstFails)),
                           Second(c, a.secondFails));
            && t.store == After(l, s.store, a) && c in t.signIns
            && (t.signIns[c].Spent? <==> Outcome(l, s.store, a) == Allowed)
  {
  }

  predicate Drew(x: SignIn) { x.Waiting? || x.Lost? || x.Spent? }

  /** The sign-ins of an address that drew their own token in a span, and those that took a shared one. */
  ghost function DrawnIn(s: State, key: string, from: int, to: int): set<nat>
  {
    set c | c in s.signIns && Drew(s.signIns[c]) && s.signIns[c].key == key && from <= s.signIns[c].drew <= to
  }

  ghost function SpentIn(s: State, key: string, from: int, to: int): set<nat>
  {
    set c | c in s.signIns && s.signIns[c].Spent? && s.signIns[c].key == key && from <= s.signIns[c].at <= to
  }

  /** Of those, the ones that drew their own token before the span began. */
  ghost function Straddling(s: State, key: string, from: int, to: int): set<nat>
  {
    set c | c in SpentIn(s, key, from, to) && s.signIns[c].drew < from
  }

  ghost predicate Start(s: State) { s.signIns == map[] }

  ghost predicate Timely(s: State)
  {
    forall c :: c in s.signIns && Drew(s.signIns[c]) ==>
      s.signIns[c].drew <= s.now && (s.signIns[c].Spent? ==> s.signIns[c].drew <= s.signIns[c].at <= s.now)
  }

  ghost predicate Bounded(l: Limits, s: State, key: string, from: int, to: int)
  {
    && Timely(s)
    && |DrawnIn(s, key, from, to)| as real <= Most(l.perEmail, from, to)
    && (s.now <= to ==> Accounted(s.store, key, l.perEmail, from, s.now, |DrawnIn(s, key, from, to)|))
  }

  /** A step that draws no token of this address. */
  lemma NoDrawKeeps(l: Limits, s: State, t: State, key: string, from: int, to: int)
    requires Sane(l.perEmail) && Bounded(l, s, key, from, to) && Timely(t) && s.now <= t.now
    requires DrawnIn(t, key, from, to) == DrawnIn(s, key, from, to)
    requires s.now <= to ==> Accounted(t.store, key, l.perEmail, from, s.now, |DrawnIn(s, key, from, to)|)
    ensures Bounded(l, t, key, from, to)
  {
    if t.now <= to { AccountedOverTime(t.store, key, l.perEmail, from, s.now, t.now, |DrawnIn(s, key, from, to)|); }
  }

  lemma OtherDrawStays(s: Store, key: string, drawn: string, c: Config, d: Config, from: int, now: int, taken: nat)
    requires drawn != key && Accounted(s, key, c, from, now, taken)
    ensures Accounted(Consume(s, drawn, d, now), key, c, from, now, taken)
  {
    OtherBucketsStay(s, drawn, d, now, key, c, now);
  }

  lemma OneMoreDrawn(s: State, t: State, c: nat, key: string, from: int, to: int)
    requires c in s.signIns && s.signIns[c].Asking? && t.signIns == s.signIns[c := Waiting(key, s.now)]
    ensures DrawnIn(t, key, from, to) == DrawnIn(s, key, from, to) + if from <= s.now <= to then {c} else {}
    ensures c !in DrawnIn(s, key, from, to)
  {
  }

  lemma OwnDrawKeeps(l: Limits, s: State, c: nat, key: string, from: int, to: int)
    requires Sane(l.perEmail) && Bounded(l, s, key, from, to) && from <= to
    requires c in s.signIns && s.signIns[c] == Asking(key)
    ensures Bounded(l, DrawOwn(l, s, c, key, false), key, from, to)
  {
    var t := DrawOwn(l, s, c, key, false);
    var taken := |DrawnIn(s, key, from, to)|;
    if Allows(s.store, key, l.perEmail, s.now) {
      OneMoreDrawn(s, t, c, key, from, to);
    } else {
      assert DrawnIn(t, key, from, to) == DrawnIn(s, key, from, to);
    }
    if s.now <= to {
      AccountedOverTake(s.store, key, l.perEmail, from, s.now, taken);
      AccountedIsBounded(t.store, key, l.perEmail, from, s.now, to, |DrawnIn(t, key, from, to)|);
    }
  }

  lemma FirstKeeps(l: Limits, s: State, c: nat, fails: bool, key: string, from: int, to: int)
    requires Sane(l.perEmail) && Bounded(l, s, key, from, to) && from <= to
    ensures Bounded(l, Apply(l, s, First(c, fails)), key, from, to)
  {
    if c in s.signIns && s.signIns[c].Asking? {
      var own := s.signIns[c].key;
      var t := Apply(l, s, First(c, fails));
      if own == key && !fails {
        OwnDrawKeeps(l, s, c, key, from, to);
      } else {
        assert DrawnIn(t, key, from, to) == DrawnIn(s, key, from, to);
        if s.now <= to && !fails {
          OtherDrawStays(s.store, key, own, l.perEmail, l.perEmail, from, s.now, |DrawnIn(s, key, from, to)|);
        }
        NoDrawKeeps(l, s, t, key, from, to);
      }
    }
  }

  lemma SecondKeeps(l: Limits, s: State, c: nat, fails: bool, key: string, from: int, to: int)
    requires Sane(l.perEmail) && Bounded(l, s, key, from, to) && key != AGGREGATE_KEY
    ensures Bounded(l, Apply(l, s, Second(c, fails)), key, from, to)
  {
    if c in s.signIns && s.signIns[c].Waiting? {
      var t := Apply(l, s, Second(c, fails));
      assert DrawnIn(t, key, from, to) == DrawnIn(s, key, from, to);
      if s.now <= to && !fails {
        OtherDrawStays(s.store, key, AGGREGATE_KEY, l.perEmail, l.aggregate, from, s.now, |DrawnIn(s, key, from, to)|);
      }
      NoDrawKeeps(l, s, t, key, from, to);
    }
  }

  lemma StepKeepsBounded(l: Limits, s: State, e: Event, key: string, from: int, to: int)
    requires Sane(l.perEmail) && Bounded(l, s, key, from, to) && from <= to && key != AGGREGATE_KEY
    ensures Bounded(l, Apply(l, s, e), key, from, to)
  {
    match e
    case First(c, fails) => FirstKeeps(l, s, c, fails, key, from, to);
    case Second(c, fails) => SecondKeeps(l, s, c, fails, key, from, to);
    case _ =>
      assert DrawnIn(Apply(l, s, e), key, from, to) == DrawnIn(s, key, from, to);
      NoDrawKeeps(l, s, Apply(l, s, e), key, from, to);
  }

  lemma {:induction false} RunKeepsBounded(l: Limits, s: State, es: seq<Event>, key: string, from: int, to: int)
    requires Sane(l.perEmail) && Start(s) && InOrder(s.store, key, l.perEmail, s.now) && from <= to
             && key != AGGREGATE_KEY
    ensures Bounded(l, Exec(l, s, es), key, from, to)
  {
    if |es| == 0 {
      assert DrawnIn(s, key, from, to) == {};
      AccountedAtFirst(s.store, key, l.perEmail, from, s.now);
      RefillIsNotNegative(l.perEmail, from, to);
    } else {
      RunKeepsBounded(l, s, es[..|es| - 1], key, from, to);
      StepKeepsBounded(l, Exec(l, s, es[..|es| - 1]), es[|es| - 1], key, from, to);
    }
  }

  /** However many sign-ins of one address run at once: over any span it takes no more shared tokens than its
      own bucket gives, its burst and its rate over the span, and the ones it was still waiting for as the
      span began. */
  lemma OneAddressIsBounded(l: Limits, s: State, es: seq<Event>, email: string, from: int, to: int)
    requires Sane(l.perEmail) && Start(s) && InOrder(s.store, EmailKey(l.lower, email), l.perEmail, s.now) && from <= to
    ensures var (t, key) := (Exec(l, s, es), EmailKey(l.lower, email));
            |SpentIn(t, key, from, to)| as real <= Most(l.perEmail, from, to) + |Straddling(t, key, from, to)| as real
  {
    var key := EmailKey(l.lower, email);
    SharedIsNoAddress(l, email);
    RunKeepsBounded(l, s, es, key, from, to);
    var t := Exec(l, s, es);
    var (all, late) := (SpentIn(t, key, from, to), Straddling(t, key, from, to));
    SubsetIsSmaller(all - late, DrawnIn(t, key, from, to));
    assert all == (all - late) + late && |all| == |all - late| + |late|;
  }

  // ----- everybody together -----

  ghost function AllSpentIn(s: State, from: int, to: int): set<nat>
  {
    set c | c in s.signIns && s.signIns[c].Spent? && from <= s.signIns[c].at <= to
  }

  ghost predicate SharedBounded(l: Limits, s: State, from: int, to: int)
  {
    && (forall c :: c in s.signIns ==> s.signIns[c].key != AGGREGATE_KEY)
    && |AllSpentIn(s, from, to)| as real <= Most(l.aggregate, from, to)
    && (s.now <= to ==> Accounted(s.store, AGGREGATE_KEY, l.aggregate, from, s.now, |AllSpentIn(s, from, to)|))
  }

  /** A step that takes no shared token. */
  lemma NoSpendKeeps(l: Limits, s: State, t: State, from: int, to: int)
    requires Sane(l.aggregate) && SharedBounded(l, s, from, to) && s.now <= t.now
    requires forall c :: c in t.signIns ==> t.signIns[c].key != AGGREGATE_KEY
    requires AllSpentIn(t, from, to) == AllSpentIn(s, from, to)
    requires s.now <= to ==>
               Accounted(t.store, AGGREGATE_KEY, l.aggregate, from, s.now, |AllSpentIn(s, from, to)|)
    ensures SharedBounded(l, t, from, to)
  {
    if t.now <= to {
      AccountedOverTime(t.store, AGGREGATE_KEY, l.aggregate, from, s.now, t.now, |AllSpentIn(s, from, to)|);
    }
  }

  lemma OneMoreSpent(s: State, t: State, c: nat, key: string, drew: int, from: int, to: int)
    requires c in s.signIns && s.signIns[c].Waiting? && t.signIns == s.signIns[c := Spent(key, drew, s.now)]
    ensures AllSpentIn(t, from, to) == AllSpentIn(s, from, to) + if from <= s.now <= to then {c} else {}
    ensures c !in AllSpentIn(s, from, to)
  {
  }

  lemma SpendKeeps(l: Limits, s: State, c: nat, from: int, to: int)
    requires Sane(l.aggregate) && SharedBounded(l, s, from, to) && from <= to
    requires c in s.signIns && s.signIns[c].Waiting?
    ensures SharedBounded(l, DrawShared(l, s, c, s.signIns[c].key, s.signIns[c].drew, false), from, to)
  {
    var (key, drew) := (s.signIns[c].key, s.signIns[c].drew);
    var t := DrawShared(l, s, c, key, drew, false);
    var taken := |AllSpentIn(s, from, to)|;
    if Allows(s.store, AGGREGATE_KEY, l.aggregate, s.now) {
      OneMoreSpent(s, t, c, key, drew, from, to);
    } else {
      assert AllSpentIn(t, from, to) == AllSpentIn(s, from, to);
    }
    if s.now <= to {
      AccountedOverTake(s.store, AGGREGATE_KEY, l.aggregate, from, s.now, taken);
      AccountedIsBounded(t.store, AGGREGATE_KEY, l.aggregate, from, s.now, to, |AllSpentIn(t, from, to)|);
    }
  }

  lemma StepKeepsShared(l: Limits, s: State, e: Event, from: int, to: int)
    requires Sane(l.aggregate) && SharedBounded(l, s, from, to) && from <= to
    ensures SharedBounded(l, Apply(l, s, e), from, to)
  {
    var t := Apply(l, s, e);
    if e.Begin? { SharedIsNoAddress(l, e.email); }
    if e.Second? && !e.fails && t != s {
      SpendKeeps(l, s, e.call, from, to);
    } else {
      assert AllSpentIn(t, from, to) == AllSpentIn(s, from, to);
      if e.First? && !e.fails && t != s && s.now <= to {
        OtherDrawStays(s.store, AGGREGATE_KEY, s.signIns[e.call].key, l.aggregate, l.perEmail, from, s.now,
                       |AllSpentIn(s, from, to)|);
      }
      NoSpendKeeps(l, s, t, from, to);
    }
  }

  lemma {:induction false} RunKeepsShared(l: Limits, s: State, es: seq<Event>, from: int, to: int)
    requires Sane(l.aggregate) && Start(s) && InOrder(s.store, AGGREGATE_KEY, l.aggregate, s.now) && from <= to
    ensures SharedBounded(l, Exec(l, s, es), from, to)
  {
    if |es| == 0 {
      assert AllSpentIn(s, from, to) == {};
      AccountedAtFirst(s.store, AGGREGATE_KEY, l.aggregate, from, s.now);
      RefillIsNotNegative(l.aggregate, from, to);
    } else {
      RunKeepsShared(l, s, es[..|es| - 1], from, to);
      StepKeepsShared(l, Exec(l, s, es[..|es| - 1]), es[|es| - 1], from, to);
    }
  }

  /** However many addresses sign in at once: over any span all of them together take no more than the shared
      bucket gives, its burst and its rate over the span. */
  lemma EverybodyIsBounded(l: Limits, s: State, es: seq<Event>, from: int, to: int)
    requires Sane(l.aggregate) && Start(s) && InOrder(s.store, AGGREGATE_KEY, l.aggregate, s.now) && from <= to
    ensures |AllSpentIn(Exec(l, s, es), from, to)| as real <= Most(l.aggregate, from, to)
  {
    RunKeepsShared(l, s, es, from, to);
  }

  // ----- waits -----

  ghost predicate Prompt(s: State, wait: nat)
  {
    forall c :: c in s.signIns && s.signIns[c].Spent? ==> s.signIns[c].at - s.signIns[c].drew <= wait
  }

  /** And where nobody waits longer than `wait` between the two, those are the tokens its own bucket gave
      that much earlier: the bound is the burst and the rate over the span and that wait. */
  lemma WaitsWidenTheSpan(l: Limits, s: State, es: seq<Event>, email: string, from: int, to: int, wait: nat)
    requires Sane(l.perEmail) && Start(s) && InOrder(s.store, EmailKey(l.lower, email), l.perEmail, s.now)
    requires from <= to && Prompt(Exec(l, s, es), wait)
    ensures |SpentIn(Exec(l, s, es), EmailKey(l.lower, email), from, to)| as real <= Most(l.perEmail, from - wait, to)
  {
    var key := EmailKey(l.lower, email);
    SharedIsNoAddress(l, email);
    RunKeepsBounded(l, s, es, key, from - wait, to);
    var t := Exec(l, s, es);
    SubsetIsSmaller(SpentIn(t, key, from, to), DrawnIn(t, key, from - wait, to));
  }

  // ----- the straddling ones do count -----

  lemma ExecSnoc(l: Limits, s: State, es: seq<Event>, e: Event)
    ensures Exec(l, s, es + [e]) == Apply(l, Exec(l, s, es), e)
  {
    assert (es + [e])[..|es + [e]| - 1] == es;
  }

  lemma {:induction false} ExecThen(l: Limits, s: State, es: seq<Event>, fs: seq<Event>)
    ensures Exec(l, s, es + fs) == Exec(l, Exec(l, s, es), fs)
  {
    if |fs| == 0 {
      assert es + fs == es;
    } else {
      assert (es + fs)[..|es + fs| - 1] == es + fs[..|fs| - 1];
      ExecThen(l, s, es, fs[..|fs| - 1]);
    }
  }

  /** A sign-in that draws its own token, given a full bucket of one. */
  lemma DrawsOne(l: Limits, s: State, c: nat, email: string) returns (es: seq<Event>)
    requires c !in s.signIns && l.perEmail == Config(1, 1.0)
             && Level(s.store, EmailKey(l.lower, email), l.perEmail, s.now) == 1.0
    ensures var (t, key) := (Exec(l, s, es), EmailKey(l.lower, email));
            && t.now == s.now && t.signIns == s.signIns[c := Waiting(key, s.now)]
            && t.store == s.store[key := Bucket(0.0, s.now)]
  {
    var key := EmailKey(l.lower, email);
    ExecSnoc(l, s, [], Begin(c, email));
    es := [] + [Begin(c, email)];
    assert Exec(l, s, es) == Move(s, c, Asking(key));
    ExecSnoc(l, s, es, First(c, false));
    es := es + [First(c, false)];
  }

  lemma TakesShared(l: Limits, s: State, c: nat, key: string, drew: int, level: real)
    requires c in s.signIns && s.signIns[c] == Waiting(key, drew) && level >= 1.0
    requires Level(s.store, AGGREGATE_KEY, l.aggregate, s.now) == level
    ensures var t := Apply(l, s, Second(c, false));
            && t.now == s.now && t.signIns == s.signIns[c := Spent(key, drew, s.now)]
            && t.store == s.store[AGGREGATE_KEY := Bucket(level - 1.0, s.now)]
  {
  }

  lemma BothWaiting(l: Limits, s: State, email: string) returns (es: seq<Event>)
    requires l.perEmail == Config(1, 1.0) && s == State(0, map[], map[])
    ensures var key := EmailKey(l.lower, email);
            Exec(l, s, es) == State(1, map[key := Bucket(0.0, 1)], map[0 := Waiting(key, 0), 1 := Waiting(key, 1)])
  {
    var key := EmailKey(l.lower, email);
    var first := DrawsOne(l, s, 0, email);
    ExecSnoc(l, s, first, Tick(1));
    var later := first + [Tick(1)];
    var u := Exec(l, s, later);
    assert u == State(1, map[key := Bucket(0.0, 0)], map[0 := Waiting(key, 0)]);
    var second := DrawsOne(l, u, 1, email);
    ExecThen(l, s, later, second);
    es := later + second;
  }

  /** Between the two shared draws. */
  function HalfSpent(key: string): State
  {
    State(1, map[key := Bucket(0.0, 1), AGGREGATE_KEY := Bucket(1.0, 1)],
          map[0 := Spent(key, 0, 1), 1 := Waiting(key, 1)])
  }

  lemma FirstSpends(l: Limits, s: State, key: string)
    requires l.aggregate == Config(2, 0.0) && key != AGGREGATE_KEY
    requires s == State(1, map[key := Bucket(0.0, 1)], map[0 := Waiting(key, 0), 1 := Waiting(key, 1)])
    ensures Apply(l, s, Second(0, false)) == HalfSpent(key)
  {
    TakesShared(l, s, 0, key, 0, 2.0);
  }

  lemma SecondSpends(l: Limits, key: string)
    requires l.aggregate == Config(2, 0.0) && key != AGGREGATE_KEY
    ensures Apply(l, HalfSpent(key), Second(1, false)).signIns == map[0 := Spent(key, 0, 1), 1 := Spent(key, 1, 1)]
  {
    TakesShared(l, HalfSpent(key), 1, key, 1, 1.0);
  }

  lemma BothSpend(l: Limits, s: State, key: string) returns (es: seq<Event>)
    requires l.aggregate == Config(2, 0.0) && key != AGGREGATE_KEY
    requires s == State(1, map[key := Bucket(0.0, 1)], map[0 := Waiting(key, 0), 1 := Waiting(key, 1)])
    ensures Exec(l, s, es).signIns == map[0 := Spent(key, 0, 1), 1 := Spent(key, 1, 1)]
  {
    FirstSpends(l, s, key);
    ExecSnoc(l, s, [], Second(0, false));
    es := [] + [Second(0, false)];
    SecondSpends(l, key);
    ExecSnoc(l, s, es, Second(1, false));
    es := es + [Second(1, false)];
  }

  /** Without them the bound fails: an address with a burst of one and one token a tick takes two shared tokens
      at one time, one of them for a token it drew the tick before. */
  lemma StraddlingCounts(lower: string -> string, email: string) returns (l: Limits, s: State, es: seq<Event>)
    ensures Sane(l.perEmail) && Start(s) && s.store == map[] && s.now == 0
    ensures var (t, key) := (Exec(l, s, es), EmailKey(lower, email));
            && l.lower == lower && |SpentIn(t, key, 1, 1)| == 2 && Most(l.perEmail, 1, 1) == 1.0
            && |Straddling(t, key, 1, 1)| == 1 && Prompt(t, 1)
  {
    l, s := Limits(Config(1, 1.0), Config(2, 0.0), lower), State(0, map[], map[]);
    var key := EmailKey(lower, email);
    SharedIsNoAddress(l, email);
    var waiting := BothWaiting(l, s, email);
    var rest := BothSpend(l, Exec(l, s, waiting), key);
    ExecThen(l, s, waiting, rest);
    es := waiting + rest;
    var t := Exec(l, s, es);
    assert SpentIn(t, key, 1, 1) == {0, 1} && Straddling(t, key, 1, 1) == {0};
  }

  /** Every run whose sign-ins wait no longer than `wait` between their draws keeps an address to its own burst
      and rate over the span alone. */
  ghost predicate KeepsPlainBound(wait: nat)
  {
    forall l: Limits, s, es, email, from, to ::
      && Sane(l.perEmail) && Start(s) && InOrder(s.store, EmailKey(l.lower, email), l.perEmail, s.now) && from <= to
      && Prompt(Exec(l, s, es), wait) ==>
        |SpentIn(Exec(l, s, es), EmailKey(l.lower, email), from, to)| as real <= Most(l.perEmail, from, to)
  }

  /** Exactly when nobody waits. */
  lemma PlainBoundExactly(wait: nat)
    ensures KeepsPlainBound(wait) <==> wait == 0
  {
    if wait == 0 {
      forall l: Limits, s, es, email, from, to | Sane(l.perEmail) && Start(s)
        && InOrder(s.store, EmailKey(l.lower, email), l.perEmail, s.now)
        && from <= to && Prompt(Exec(l, s, es), wait)
        ensures |SpentIn(Exec(l, s, es), EmailKey(l.lower, email), from, to)| as real <= Most(l.perEmail, from, to)
      {
        WaitsWidenTheSpan(l, s, es, email, from, to, 0);
      }
    } else {
      var l, s, es := StraddlingCounts(x => x, "");
      assert Prompt(Exec(l, s, es), wait);
      assert |SpentIn(Exec(l, s, es), EmailKey(l.lower, ""), 1, 1)| == 2;
    }
  }

  // ----- everybody else -----

  ghost predicate Others(l: Limits, s: State, es: seq<Event>, key: string)
  {
    && (forall c :: c in s.signIns ==> s.signIns[c].key != key)
    && (forall e :: e in es && e.Begin? ==> EmailKey(l.lower, e.email) != key)
  }

  /** Nobody's sign-ins touch another address's own bucket. */
  lemma {:induction false} OthersKeepTheirBucket(l: Limits, s: State, es: seq<Event>, email: string)
    requires Others(l, s, es, EmailKey(l.lower, email))
    ensures var (t, key) := (Exec(l, s, es), EmailKey(l.lower, email));
            && (key in t.store <==> key in s.store) && (key in s.store ==> t.store[key] == s.store[key])
            && forall c :: c in t.signIns ==> t.signIns[c].key != key
  {
    SharedIsNoAddress(l, email);
    if |es| > 0 {
      var front := es[..|es| - 1];
      assert forall e :: e in front ==> e in es;
      OthersKeepTheirBucket(l, s, front, email);
      assert es[|es| - 1] in es;
    }
  }
}

/** The `/token` limiter: which bucket a request draws on. */
module TokenLimiter {
  import opened Options
  import opened TokenBuckets

  /** A decoded form body: `form_urlencoded::parse` itself is not part of this model. */
  type Form = seq<(string, string)>
  datatype Body = Readable(form: Form) | Unreadable

  datatype Field = Absent | One(value: string) | Repeated

  function Values(form: Form, name: string): seq<string>
  {
    if |form| == 0 then [] else (if form[0].0 == name then [form[0].1] else []) + Values(form[1..], name)
  }

  function FormField(form: Form, name: string): Field
  {
    var values := Values(form, name);
    if |values| == 0 then Absent
    else if |values| > 1 then Repeated
    else if values[0] == "" then Absent
    else One(values[0])
  }

  /** The first `client_id`, unless it is empty; a repeated one is not refused here. */
  function ClientId(form: Form): Option<string>
  {
    var values := Values(form, "client_id");
    if |values| == 0 || values[0] == "" then None else Some(values[0])
  }

  /** `hash` is lowercase hex SHA-256. */
  function LimitKey(hash: string -> string, body: Body): string
  {
    match body
    case Unreadable => "oversized-or-unreadable-body"
    case Readable(form) =>
      if FormField(form, "grant_type") == One("authorization_code") then
        match FormField(form, "code")
        case One(code) => "code:" + hash(code)
        case Absent => "authorization-code:no-code"
        case Repeated => "authorization-code:repeated-code"
      else
        match ClientId(form)
        case None => "no-client-id"
        case Some(id) => "client:" + id
  }

  /** What a request is, as far as the limiter tells requests apart. */
  datatype Shape = Redeems(code: string) | NoCode | TwoCodes | Names(client: string) | NamesNobody | NotRead

  function ShapeOf(body: Body): Shape
  {
    match body
    case Unreadable => NotRead
    case Readable(form) =>
      if Values(form, "grant_type") == ["authorization_code"] then
        var codes := Values(form, "code");
        if |codes| > 1 then TwoCodes else if |codes| == 1 && codes[0] != "" then Redeems(codes[0]) else NoCode
      else
        var clients := Values(form, "client_id");
        if |clients| > 0 && clients[0] != "" then Names(clients[0]) else NamesNobody
  }

  lemma SamePrefix(prefix: string, a: string, b: string)
    ensures prefix + a == prefix + b <==> a == b
  {
    assert (prefix + a)[|prefix|..] == a && (prefix + b)[|prefix|..] == b;
  }

  /** Two requests share a bucket exactly when they are the same shape with the same client id or, by
      their digests, the same code. No client id, missing code or repeated code is ever another's key. */
  lemma BucketsAreShapes(hash: string -> string, a: Body, b: Body)
    ensures LimitKey(hash, a) == LimitKey(hash, b) <==>
            (ShapeOf(a) == ShapeOf(b)
             || (ShapeOf(a).Redeems? && ShapeOf(b).Redeems? && hash(ShapeOf(a).code) == hash(ShapeOf(b).code)))
  {
    KeyOfShape(hash, a);
    KeyOfShape(hash, b);
    var (x, y) := (ShapeOf(a), ShapeOf(b));
    if x.Redeems? && y.Redeems? { SamePrefix("code:", hash(x.code), hash(y.code)); }
    if x.Names? && y.Names? { SamePrefix("client:", x.client, y.client); }
  }

  lemma KeyOfShape(hash: string -> string, body: Body)
    ensures var key := LimitKey(hash, body);
            match ShapeOf(body)
            case Redeems(code) => key == "code:" + hash(code) && key[0] == 'c' && key[1] == 'o'
            case Names(client) => key == "client:" + client && key[0] == 'c' && key[1] == 'l'
            case NoCode => key == "authorization-code:no-code" && |key| == 26 && key[0] == 'a'
            case TwoCodes => key == "authorization-code:repeated-code" && |key| == 32 && key[0] == 'a'
            case NamesNobody => key == "no-client-id" && key[0] == 'n'
            case NotRead => key == "oversized-or-unreadable-body" && key[0] == 'o'
  {
    if body.Readable? {
      var grants := Values(body.form, "grant_type");
      assert grants == ["authorization_code"] <==> FormField(body.form, "grant_type") == One("authorization_code");
    }
  }

  // ----- histories -----

  /** `fails`: the store could not answer. */
  datatype Request = Request(body: Body, now: int, fails: bool)
  datatype Answer = Admitted | Throttled | Unavailable

  class TokenRateLimit {
    var store: Store
    const config: Config
    const hash: string -> string

    constructor (config: Config, hash: string -> string)
      ensures this.config == config && this.hash == hash && store == map[]
    {
      this.config, this.hash, this.store := config, hash, map[];
    }

    /** One token from the request's own bucket, if it has one, and from no other; a request the store cannot
        answer for is refused and takes nothing. */
    method Enforce(r: Request) returns (answer: Answer)
      modifies this`store
      ensures store == After(config, hash, old(store), r)
      ensures forall k :: k != LimitKey(hash, r.body) ==>
              (k in store <==> k in old(store)) && (k in store ==> store[k] == old(store)[k])
      ensures answer.Unavailable? <==> r.fails
      ensures r.fails ==> store == old(store)
      ensures !r.fails && Sane(config) && InOrder(old(store), LimitKey(hash, r.body), config, r.now) ==>
                var (key, level) := (LimitKey(hash, r.body), Level(old(store), LimitKey(hash, r.body), config, r.now));
                && (answer.Admitted? <==> level >= 1.0) && InOrder(store, key, config, r.now)
                && Level(store, key, config, r.now) == level - if answer.Admitted? then 1.0 else 0.0
    {
      var key := LimitKey(hash, r.body);
      if r.fails { return Unavailable; }
      if Sane(config) && InOrder(store, key, config, r.now) { ConsumeTakesOne(store, key, config, r.now); }
      answer := if Allows(store, key, config, r.now) then Admitted else Throttled;
      store := Consume(store, key, config, r.now);
    }
  }

  function After(c: Config, hash: string -> string, s: Store, r: Request): Store
  {
    if r.fails then s else Consume(s, LimitKey(hash, r.body), c, r.now)
  }

  function Run(c: Config, hash: string -> string, s: Store, rs: seq<Request>): Store
  {
    if |rs| == 0 then s else After(c, hash, Run(c, hash, s, rs[..|rs| - 1]), rs[|rs| - 1])
  }

  function Clock(t0: int, rs: seq<Request>): int
  {
    if |rs| == 0 then t0 else rs[|rs| - 1].now
  }

  predicate Ordered(t0: int, rs: seq<Request>)
  {
    |rs| == 0 || (Clock(t0, rs[..|rs| - 1]) <= rs[|rs| - 1].now && Ordered(t0, rs[..|rs| - 1]))
  }

  function Redemptions(rs: seq<Request>, code: string): nat
  {
    if |rs| == 0 then 0
    else Redemptions(rs[..|rs| - 1], code) + if ShapeOf(rs[|rs| - 1].body) == Redeems(code) then 1 else 0
  }

  /** No other code in the history has this code's digest. */
  ghost predicate OwnDigest(hash: string -> string, rs: seq<Request>, code: string)
  {
    forall i :: 0 <= i < |rs| ==> ShapeOf(rs[i].body).Redeems? && hash(ShapeOf(rs[i].body).code) == hash(code) ==>
      ShapeOf(rs[i].body).code == code
  }

  lemma {:induction false} OnlyItsOwnRedemptionsCount(c: Config, hash: string -> string, s: Store, t0: int,
                                                      rs: seq<Request>, code: string)
    requires Sane(c) && ("code:" + hash(code)) !in s && Ordered(t0, rs) && OwnDigest(hash, rs, code)
    ensures var (key, t) := ("code:" + hash(code), Run(c, hash, s, rs));
            && InOrder(t, key, c, Clock(t0, rs))
            && Level(t, key, c, Clock(t0, rs)) >= c.burst as real - Redemptions(rs, code) as real
  {
    if |rs| > 0 {
      var (front, r, key) := (rs[..|rs| - 1], rs[|rs| - 1], "code:" + hash(code));
      var before := Run(c, hash, s, front);
      assert forall i :: 0 <= i < |front| ==> front[i] == rs[i];
      OnlyItsOwnRedemptionsCount(c, hash, s, t0, front, code);
      LevelOverTime(before, key, c, Clock(t0, front), r.now);
      KeyOfShape(hash, r.body);
      if r.fails {
      } else if LimitKey(hash, r.body) == key {
        ConsumeTakesOne(before, key, c, r.now);
        if ShapeOf(r.body).Redeems? { SamePrefix("code:", hash(ShapeOf(r.body).code), hash(code)); }
        assert ShapeOf(rs[|rs| - 1].body) == Redeems(code);
      } else {
        OtherBucketsStay(before, LimitKey(hash, r.body), c, r.now, key, c, r.now);
      }
    }
  }

  /** Whatever came before, of any client id, any other code, no code or two codes, the first `burst`
      redemptions of a code are let through. */
  lemma FirstRedemptionsAreAdmitted(c: Config, hash: string -> string, s: Store, t0: int, rs: seq<Request>, r: Request,
                                    code: string)
    requires Sane(c) && ("code:" + hash(code)) !in s && Ordered(t0, rs) && Clock(t0, rs) <= r.now
    requires OwnDigest(hash, rs, code) && ShapeOf(r.body) == Redeems(code) && Redemptions(rs, code) < c.burst
    ensures Allows(Run(c, hash, s, rs), LimitKey(hash, r.body), c, r.now)
  {
    OnlyItsOwnRedemptionsCount(c, hash, s, t0, rs, code);
    KeyOfShape(hash, r.body);
    LevelOverTime(Run(c, hash, s, rs), "code:" + hash(code), c, Clock(t0, rs), r.now);
  }
}
