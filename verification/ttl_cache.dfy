/**
 The time-to-live cache (`TtlCache`) in front of rows that others change.

 `TtlCaches` is the cache itself. `CacheRace` is any number of concurrent `get_or_fetch` calls over a
 source that changes at any moment: no single flight, last write wins, a fetch may fail or be dropped
 at any point, and it may read the source several times before its value lands.
 */
module TtlCaches {
  import opened Options

  datatype Entry<V> = Entry(value: V, at: int)
  datatype Fetched<V, E> = Got(value: V) | Err(error: E)

  /** What `get` answers: an entry is good while it is strictly younger than the time to live. */
  function Lookup<K, V>(entries: map<K, Entry<V>>, key: K, now: int, ttl: nat): Option<V>
  {
    if key in entries && now - entries[key].at < ttl then Some(entries[key].value) else None
  }

  function Store<K, V>(entries: map<K, Entry<V>>, key: K, value: V, now: int): map<K, Entry<V>>
  {
    entries[key := Entry(value, now)]
  }

  class TtlCache<K(==), V> {
    const ttl: nat
    var entries: map<K, Entry<V>>

    constructor (ttl: nat)
      ensures this.ttl == ttl && entries == map[]
    {
      this.ttl, this.entries := ttl, map[];
    }

    method Get(key: K, now: int) returns (value: Option<V>)
      ensures value == Lookup(entries, key, now, ttl)
    {
      if key !in entries { return None; }
      var entry := entries[key];
      value := if now - entry.at < ttl then Some(entry.value) else None;
    }

    /** While a fetch is awaited the lock is free and other callers write what they fetched. */
    method Others(writes: seq<(K, V, int)>)
      modifies this
      ensures entries == StoreAll(old(entries), writes)
    {
      var i := 0;
      while i < |writes|
        invariant 0 <= i <= |writes|
        invariant entries == StoreAll(old(entries), writes[..i])
      {
        assert writes[..i + 1][..i] == writes[..i];
        entries := Store(entries, writes[i].0, writes[i].1, writes[i].2);
        i := i + 1;
      }
      assert writes[..i] == writes;
    }

    /** `get_or_fetch`. `fetched` is what the caller's fetch came back with at `later`, and `writes` what
        other callers stored in the meantime. A good entry is answered with no fetch; a value fetched is
        stored and is what the next `get` within the time to live sees; a failed fetch changes nothing. */
    method GetOrFetch<E>(key: K, now: int, fetched: Fetched<V, E>, later: int, writes: seq<(K, V, int)>)
      returns (result: Fetched<V, E>)
      requires now <= later
      modifies this
      ensures old(Lookup(entries, key, now, ttl)).Some? ==>
                entries == old(entries) && result == Got(old(Lookup(entries, key, now, ttl)).value)
      ensures old(Lookup(entries, key, now, ttl)).None? ==> result == fetched
      ensures old(Lookup(entries, key, now, ttl)).None? && fetched.Err? ==>
                entries == StoreAll(old(entries), writes)
      ensures old(Lookup(entries, key, now, ttl)).None? && fetched.Got? ==>
                && (forall k :: k != key ==> (k in entries <==> k in StoreAll(old(entries), writes)))
                && (forall k :: k != key && k in entries ==> entries[k] == StoreAll(old(entries), writes)[k])
                && forall t :: Lookup(entries, key, t, ttl) == if t - later < ttl then Some(fetched.value) else None
    {
      var hit := Get(key, now);
      if hit.Some? { return Got(hit.value); }
      Others(writes);
      if fetched.Err? { return fetched; }
      entries := Store(entries, key, fetched.value, later);
      result := fetched;
    }
  }

  ghost function StoreAll<K, V>(entries: map<K, Entry<V>>, writes: seq<(K, V, int)>): map<K, Entry<V>>
  {
    if |writes| == 0 then entries
    else
      var w := writes[|writes| - 1];
      Store(StoreAll(entries, writes[..|writes| - 1]), w.0, w.1, w.2)
  }
}

module CacheRace {
  import opened Options
  import opened TtlCaches

  /** The source as it stood at one time. */
  datatype Moment<S> = Moment(now: int, source: S)

  /** A fetch remembers at which moments it read the source. */
  datatype Call<K, V> =
    | Fetching(key: K, since: int, views: seq<nat>)
    | Done(key: K, result: Option<V>, at: int)  // `None`: refused, or failed

  /** `past` is every moment of the source so far; the last one is now. */
  datatype State<S, K, V> = State(past: seq<Moment<S>>, entries: map<K, Entry<V>>, calls: map<nat, Call<K, V>>)

  /** How a key is loaded: how many times the source is read, what those reads make of it, and the
      longest a fetch takes. */
  datatype Loader<!S, !K, V> = Loader(ttl: nat, longest: nat, times: K -> nat, load: (K, seq<S>) -> Option<V>)

  /** The oldest a returned value can be: an entry is served while it is strictly younger than the time to
      live, and its value was read no longer than a fetch before it landed. */
  function Age<S, K, V>(l: Loader<S, K, V>): nat
  {
    (if l.ttl > 0 then l.ttl - 1 else 0) + l.longest
  }

  datatype Event<S, K> =
    | Tick(elapsed: nat)
    | Change(source: S)
    | Begin(call: nat, key: K)
    | Read(call: nat)
    | Land(call: nat)
    | Fail(call: nat)  // the database failed, or the request went away

  predicate Valid<S, K, V>(s: State<S, K, V>) { |s.past| > 0 }

  function Now<S, K, V>(s: State<S, K, V>): int
    requires Valid(s)
  {
    s.past[|s.past| - 1].now
  }

  function Observed<S>(past: seq<Moment<S>>, views: seq<nat>): seq<S>
    requires forall i :: 0 <= i < |views| ==> views[i] < |past|
  {
    seq(|views|, i requires 0 <= i < |views| => past[views[i]].source)
  }

  predicate InPast<S, K, V>(s: State<S, K, V>, views: seq<nat>)
  {
    forall i :: 0 <= i < |views| ==> views[i] < |s.past|
  }

  function Finish<S, K, V>(s: State<S, K, V>, c: nat, key: K, result: Option<V>): State<S, K, V>
    requires Valid(s)
  {
    s.(calls := s.calls[c := Done(key, result, Now(s))])
  }

  /** The value the reads make, if any, is stored with the time it landed, and returned. */
  function LandCall<S, K, V>(l: Loader<S, K, V>, s: State<S, K, V>, c: nat): State<S, K, V>
    requires Valid(s) && c in s.calls && s.calls[c].Fetching? && InPast(s, s.calls[c].views)
  {
    var key := s.calls[c].key;
    match l.load(key, Observed(s.past, s.calls[c].views))
    case None => Finish(s, c, key, None)
    case Some(v) => Finish(s.(entries := Store(s.entries, key, v, Now(s))), c, key, Some(v))
  }

  function Apply<S, K, V>(l: Loader<S, K, V>, s: State<S, K, V>, e: Event<S, K>): State<S, K, V>
    requires Valid(s)
    ensures Valid(Apply(l, s, e))
  {
    match e
    case Tick(d) => s.(past := s.past + [Moment(Now(s) + d, s.past[|s.past| - 1].source)])
    case Change(source) => s.(past := s.past + [Moment(Now(s), source)])
    case Begin(c, key) =>
      if c in s.calls then s
      else
        var hit := Lookup(s.entries, key, Now(s), l.ttl);
        if hit.Some? then Finish(s, c, key, hit)
        else s.(calls := s.calls[c := Fetching(key, Now(s), [])])
    case Read(c) =>
      if c in s.calls && s.calls[c].Fetching? then
        var call := s.calls[c];
        s.(calls := s.calls[c := call.(views := call.views + [|s.past| - 1])])
      else s
    case Land(c) =>
      if c in s.calls && s.calls[c].Fetching? && InPast(s, s.calls[c].views)
         && |s.calls[c].views| == l.times(s.calls[c].key) && Now(s) - s.calls[c].since <= l.longest
      then LandCall(l, s, c) else s
    case Fail(c) =>
      if c in s.calls && s.calls[c].Fetching? then Finish(s, c, s.calls[c].key, None) else s
  }

  function Exec<S, K, V>(l: Loader<S, K, V>, s: State<S, K, V>, es: seq<Event<S, K>>): State<S, K, V>
    requires Valid(s)
    ensures Valid(Exec(l, s, es))
  {
    if |es| == 0 then s else Apply(l, Exec(l, s, es[..|es| - 1]), es[|es| - 1])
  }

  ghost predicate Start<S, K, V>(s: State<S, K, V>)
  {
    |s.past| == 1 && s.entries == map[] && s.calls == map[]
  }

  /** Reads in order, none earlier than `from`. */
  ghost predicate ReadSince<S, K, V>(s: State<S, K, V>, views: seq<nat>, from: int)
  {
    && InPast(s, views)
    && (forall i, j :: 0 <= i < j < |views| ==> views[i] <= views[j])
    && (forall i :: 0 <= i < |views| ==> s.past[views[i]].now >= from)
  }

  /** The value is what a whole load makes of the source as it stood no earlier than `from`. */
  ghost predicate HeldSince<S, K, V>(l: Loader<S, K, V>, s: State<S, K, V>, key: K, value: V, from: int)
  {
    exists views ::
      ReadSince(s, views, from) && |views| == l.times(key) && l.load(key, Observed(s.past, views)) == Some(value)
  }

  ghost predicate Ordered<S>(past: seq<Moment<S>>)
  {
    forall i, j :: 0 <= i < j < |past| ==> past[i].now <= past[j].now
  }

  ghost predicate CallOk<S, K, V>(l: Loader<S, K, V>, s: State<S, K, V>, call: Call<K, V>)
    requires Valid(s)
  {
    match call
    case Fetching(key, since, views) => since <= Now(s) && ReadSince(s, views, since)
    case Done(key, result, at) => at <= Now(s) && (result.Some? ==> HeldSince(l, s, key, result.value, at - Age(l)))
  }

  ghost predicate EntriesOk<S, K, V>(l: Loader<S, K, V>, s: State<S, K, V>, entries: map<K, Entry<V>>)
    requires Valid(s)
  {
    forall k :: k in entries ==>
      entries[k].at <= Now(s) && HeldSince(l, s, k, entries[k].value, entries[k].at - l.longest)
  }

  ghost predicate CallsOk<S, K, V>(l: Loader<S, K, V>, s: State<S, K, V>)
    requires Valid(s)
  {
    forall c :: c in s.calls ==> CallOk(l, s, s.calls[c])
  }

  ghost predicate Inv<S, K, V>(l: Loader<S, K, V>, s: State<S, K, V>)
  {
    && Valid(s) && Ordered(s.past)
    && EntriesOk(l, s, s.entries) && CallsOk(l, s)
  }

  ghost predicate Extends<S, K, V>(s: State<S, K, V>, t: State<S, K, V>)
  {
    && Valid(s) && Valid(t) && Now(s) <= Now(t)
    && |s.past| <= |t.past| && forall i :: 0 <= i < |s.past| ==> t.past[i] == s.past[i]
  }

  /** What was held stays held: the past only grows. */
  lemma HeldStays<S, K, V>(l: Loader<S, K, V>, s: State<S, K, V>, t: State<S, K, V>, key: K, value: V, from: int,
                           lower: int)
    requires Extends(s, t)
    requires HeldSince(l, s, key, value, from) && lower <= from
    ensures HeldSince(l, t, key, value, lower)
  {
    var views :| ReadSince(s, views, from) && |views| == l.times(key)
      && l.load(key, Observed(s.past, views)) == Some(value);
    assert Observed(t.past, views) == Observed(s.past, views);
    assert ReadSince(t, views, lower);
  }

  lemma CallStays<S, K, V>(l: Loader<S, K, V>, s: State<S, K, V>, t: State<S, K, V>, call: Call<K, V>)
    requires Extends(s, t) && CallOk(l, s, call)
    ensures CallOk(l, t, call)
  {
    match call
    case Fetching(key, since, views) =>
    case Done(key, result, at) =>
      if result.Some? { HeldStays(l, s, t, key, result.value, at - Age(l), at - Age(l)); }
  }

  ghost predicate ChangesOnly<S, K, V>(s: State<S, K, V>, t: State<S, K, V>, c: nat)
  {
    forall d :: d in t.calls && d != c ==> d in s.calls && t.calls[d] == s.calls[d]
  }

  /** A step that adds good entries and changes one call, over a past that only grows. */
  lemma GrowthKeepsInv<S, K, V>(l: Loader<S, K, V>, s: State<S, K, V>, t: State<S, K, V>, c: nat)
    requires Inv(l, s) && Extends(s, t) && Ordered(t.past)
    requires EntriesOk(l, s, t.entries) && ChangesOnly(s, t, c)
    requires c in t.calls ==> CallOk(l, s, t.calls[c])
    ensures Inv(l, t)
  {
    forall k | k in t.entries ensures HeldSince(l, t, k, t.entries[k].value, t.entries[k].at - l.longest) {
      HeldStays(l, s, t, k, t.entries[k].value, t.entries[k].at - l.longest, t.entries[k].at - l.longest);
    }
    forall d | d in t.calls ensures CallOk(l, t, t.calls[d]) { CallStays(l, s, t, t.calls[d]); }
  }

  lemma TimeKeepsInv<S, K, V>(l: Loader<S, K, V>, s: State<S, K, V>, e: Event<S, K>)
    requires Inv(l, s) && (e.Tick? || e.Change?)
    ensures Inv(l, Apply(l, s, e))
  {
    var t := Apply(l, s, e);
    assert Ordered(t.past);
    GrowthKeepsInv(l, s, t, 0);
  }

  lemma StoreKeepsEntries<S, K, V>(l: Loader<S, K, V>, s: State<S, K, V>, key: K, value: V)
    requires Valid(s) && EntriesOk(l, s, s.entries) && HeldSince(l, s, key, value, Now(s) - l.longest)
    ensures EntriesOk(l, s, Store(s.entries, key, value, Now(s)))
  {
  }

  lemma FinishKeepsInv<S, K, V>(l: Loader<S, K, V>, s: State<S, K, V>, entries: map<K, Entry<V>>, c: nat, key: K,
                                result: Option<V>)
    requires Inv(l, s) && EntriesOk(l, s, entries)
    requires result.Some? ==> HeldSince(l, s, key, result.value, Now(s) - Age(l))
    ensures Inv(l, Finish(s.(entries := entries), c, key, result))
  {
  }

  lemma BeginKeepsInv<S, K, V>(l: Loader<S, K, V>, s: State<S, K, V>, c: nat, key: K)
    requires Inv(l, s)
    ensures Inv(l, Apply(l, s, Begin(c, key)))
  {
    if c !in s.calls {
      var hit := Lookup(s.entries, key, Now(s), l.ttl);
      if hit.Some? {
        HeldStays(l, s, s, key, hit.value, s.entries[key].at - l.longest, Now(s) - Age(l));
        FinishKeepsInv(l, s, s.entries, c, key, hit);
      } else {
        GrowthKeepsInv(l, s, Apply(l, s, Begin(c, key)), c);
      }
    }
  }

  lemma ReadKeepsInv<S, K, V>(l: Loader<S, K, V>, s: State<S, K, V>, c: nat)
    requires Inv(l, s)
    ensures Inv(l, Apply(l, s, Read(c)))
  {
  }

  /** A value that lands was held since the fetch began, which is no longer ago than a fetch takes. */
  lemma LandedIsHeld<S, K, V>(l: Loader<S, K, V>, s: State<S, K, V>, key: K, since: int, views: seq<nat>)
    requires Valid(s) && ReadSince(s, views, since) && |views| == l.times(key)
    requires Now(s) - since <= l.longest && l.load(key, Observed(s.past, views)).Some?
    ensures var v := l.load(key, Observed(s.past, views)).value;
            HeldSince(l, s, key, v, Now(s) - l.longest) && HeldSince(l, s, key, v, Now(s) - Age(l))
  {
  }

  lemma LandKeepsInv<S, K, V>(l: Loader<S, K, V>, s: State<S, K, V>, c: nat)
    requires Inv(l, s) && c in s.calls && s.calls[c].Fetching? && InPast(s, s.calls[c].views)
    requires |s.calls[c].views| == l.times(s.calls[c].key) && Now(s) - s.calls[c].since <= l.longest
    ensures Inv(l, LandCall(l, s, c))
  {
    var call := s.calls[c];
    assert CallOk(l, s, call);
    match l.load(call.key, Observed(s.past, call.views))
    case None => FinishKeepsInv(l, s, s.entries, c, call.key, None);
    case Some(v) =>
      LandedIsHeld(l, s, call.key, call.since, call.views);
      StoreKeepsEntries(l, s, call.key, v);
      FinishKeepsInv(l, s, Store(s.entries, call.key, v, Now(s)), c, call.key, Some(v));
  }

  lemma StepKeepsInv<S, K, V>(l: Loader<S, K, V>, s: State<S, K, V>, e: Event<S, K>)
    requires Inv(l, s)
    ensures Inv(l, Apply(l, s, e))
  {
    match e
    case Tick(_) => TimeKeepsInv(l, s, e);
    case Change(_) => TimeKeepsInv(l, s, e);
    case Begin(c, key) => BeginKeepsInv(l, s, c, key);
    case Read(c) => ReadKeepsInv(l, s, c);
    case Land(c) => if Apply(l, s, e) != s { LandKeepsInv(l, s, c); }
    case Fail(c) => if Apply(l, s, e) != s { FinishKeepsInv(l, s, s.entries, c, s.calls[c].key, None); }
  }

  lemma {:induction false} RunKeepsInv<S, K, V>(l: Loader<S, K, V>, s: State<S, K, V>, es: seq<Event<S, K>>)
    requires Start(s)
    ensures Inv(l, Exec(l, s, es))
  {
    if |es| > 0 {
      RunKeepsInv(l, s, es[..|es| - 1]);
      StepKeepsInv(l, Exec(l, s, es[..|es| - 1]), es[|es| - 1]);
    }
  }

  /** What a call returns at a time is what the source held no earlier than that age before it, whoever else
      fetched, changed the source or overwrote the entry meanwhile. */
  lemma ReturnedIsRecent<S, K, V>(l: Loader<S, K, V>, s: State<S, K, V>, es: seq<Event<S, K>>, c: nat)
    requires Start(s)
    requires c in Exec(l, s, es).calls && Exec(l, s, es).calls[c].Done? && Exec(l, s, es).calls[c].result.Some?
    ensures var t := Exec(l, s, es);
            HeldSince(l, t, t.calls[c].key, t.calls[c].result.value, t.calls[c].at - Age(l))
  {
    RunKeepsInv(l, s, es);
    assert CallOk(l, Exec(l, s, es), Exec(l, s, es).calls[c]);
  }

  lemma HeldMeansPresent<S(!new), K, V>(l: Loader<S, K, V>, t: State<S, K, V>, key: K, value: V, from: int,
                                        gone: S -> bool)
    requires l.times(key) > 0
    requires forall seen: seq<S> :: |seen| == l.times(key) && gone(seen[0]) ==> l.load(key, seen).None?
    ensures HeldSince(l, t, key, value, from) ==>
              exists i :: 0 <= i < |t.past| && t.past[i].now >= from && !gone(t.past[i].source)
  {
  }

  /** Once the source shows something no load accepts, and goes on showing it, every call that returns
      more than that age later is refused. */
  lemma GoneIsRefused<S(!new), K, V>(l: Loader<S, K, V>, s: State<S, K, V>, es: seq<Event<S, K>>, c: nat,
                                     gone: S -> bool, t0: int)
    requires Start(s)
    requires c in Exec(l, s, es).calls && Exec(l, s, es).calls[c].Done?
    requires var key := Exec(l, s, es).calls[c].key;
             l.times(key) > 0 && forall seen: seq<S> :: |seen| == l.times(key) && gone(seen[0]) ==>
               l.load(key, seen).None?
    requires forall i :: 0 <= i < |Exec(l, s, es).past| ==>
               Exec(l, s, es).past[i].now >= t0 ==> gone(Exec(l, s, es).past[i].source)
    requires Exec(l, s, es).calls[c].at > t0 + Age(l)
    ensures Exec(l, s, es).calls[c].result.None?
  {
    var t := Exec(l, s, es);
    var call := t.calls[c];
    if call.result.Some? {
      HeldMeansPresent(l, t, call.key, call.result.value, call.at - Age(l), gone);
      ReturnedIsRecent(l, s, es, c);
    }
  }

  /** Everything a call of this key may come to while the source shows what every load accepts. */
  ghost predicate Finds<S, K, V>(s: State<S, K, V>, c: nat, key: K)
  {
    c in s.calls && s.calls[c].key == key ==>
      (s.calls[c].Fetching? ==> InPast(s, s.calls[c].views)) && (s.calls[c].Done? ==> s.calls[c].result.Some?)
  }

  lemma FindsStep<S(!new), K, V>(l: Loader<S, K, V>, s: State<S, K, V>, e: Event<S, K>, c: nat, key: K,
                                 present: S -> bool)
    requires Valid(s) && Finds(s, c, key) && e != Fail(c)
    requires forall seen: seq<S> :: |seen| == l.times(key) && (forall i :: 0 <= i < |seen| ==> present(seen[i])) ==>
               l.load(key, seen).Some?
    requires forall i :: 0 <= i < |s.past| ==> present(s.past[i].source)
    ensures Finds(Apply(l, s, e), c, key)
  {
  }

  /** While the source goes on showing what every load accepts, every call that does not fail finds a value. */
  lemma {:induction false} PresentIsFound<S(!new), K, V>(l: Loader<S, K, V>, s: State<S, K, V>, es: seq<Event<S, K>>,
                                                         c: nat, key: K, present: S -> bool)
    requires Start(s) && forall i :: 0 <= i < |es| ==> es[i] != Fail(c)
    requires forall seen: seq<S> :: |seen| == l.times(key) && (forall i :: 0 <= i < |seen| ==> present(seen[i])) ==>
               l.load(key, seen).Some?
    requires forall i :: 0 <= i < |Exec(l, s, es).past| ==> present(Exec(l, s, es).past[i].source)
    ensures Finds(Exec(l, s, es), c, key)
  {
    if |es| > 0 {
      var front := Exec(l, s, es[..|es| - 1]);
      forall i | 0 <= i < |front.past| ensures present(front.past[i].source) {
        assert Exec(l, s, es).past[i] == front.past[i];
      }
      PresentIsFound(l, s, es[..|es| - 1], c, key, present);
      FindsStep(l, front, es[|es| - 1], c, key, present);
    }
  }

  lemma ExecSnoc<S, K, V>(l: Loader<S, K, V>, s: State<S, K, V>, es: seq<Event<S, K>>, e: Event<S, K>)
    requires Valid(s)
    ensures Exec(l, s, es + [e]) == Apply(l, Exec(l, s, es), e)
  {
  }

  lemma PastStep<S, K, V>(l: Loader<S, K, V>, s: State<S, K, V>, e: Event<S, K>, i: nat)
    requires Valid(s) && i < |Apply(l, s, e).past| - 1
    ensures i < |s.past| && Apply(l, s, e).past[i] == s.past[i]
  {
  }

  /** The last event of a run adds at most the last moment of its past. */
  lemma LastEvent<S, K, V>(l: Loader<S, K, V>, s: State<S, K, V>, es: seq<Event<S, K>>, i: nat)
    requires Valid(s) && |es| > 0 && i < |Exec(l, s, es).past| - 1
    ensures i < |Exec(l, s, es[..|es| - 1]).past| && Exec(l, s, es).past[i] == Exec(l, s, es[..|es| - 1]).past[i]
  {
    PastStep(l, Exec(l, s, es[..|es| - 1]), es[|es| - 1], i);
  }

  /** The moment a run has come to. */
  function Latest<S, K, V>(s: State<S, K, V>): Moment<S>
    requires Valid(s)
  {
    s.past[|s.past| - 1]
  }

  lemma LatestOfPrefix<S, K, V>(l: Loader<S, K, V>, s: State<S, K, V>, es: seq<Event<S, K>>, n: nat)
    requires Valid(s) && n <= |es|
    ensures n == |es| ==> Latest(Exec(l, s, es[..n])) == Latest(Exec(l, s, es))
    ensures n < |es| ==> Latest(Exec(l, s, es[..|es| - 1][..n])) == Latest(Exec(l, s, es[..n]))
  {
    if n == |es| {
      assert es[..n] == es;
    } else {
      assert es[..|es| - 1][..n] == es[..n];
    }
  }

  /** The states the past names are the states the run went through. */
  lemma {:induction false} PastIsTheRun<S, K, V>(l: Loader<S, K, V>, s: State<S, K, V>, es: seq<Event<S, K>>, i: nat)
    returns (n: nat)
    requires Start(s) && i < |Exec(l, s, es).past|
    ensures n <= |es| && Latest(Exec(l, s, es[..n])) == Exec(l, s, es).past[i]
  {
    if |es| == 0 || i == |Exec(l, s, es).past| - 1 {
      n := |es|;
    } else {
      LastEvent(l, s, es, i);
      n := PastIsTheRun(l, s, es[..|es| - 1], i);
    }
    LatestOfPrefix(l, s, es, n);
  }

  /** A cell with no row behind the key but a number. */
  function Cell(ttl: nat, longest: nat): Loader<int, (), int>
  {
    Loader(ttl, longest, _ => 1, (_, seen) => if |seen| == 1 then Some(seen[0]) else None)
  }

  /** For any time to live and any fetch time, a run returns a value the source dropped a full age ago. */
  lemma BoundIsReached(ttl: nat, longest: nat) returns (s: State<int, (), int>, es: seq<Event<int, ()>>, c: nat)
    ensures Start(s) && c in Exec(Cell(ttl, longest), s, es).calls
    ensures var t := Exec(Cell(ttl, longest), s, es);
            && t.calls[c] == Done((), Some(0), Now(t))
            && forall i :: 0 <= i < |t.past| && t.past[i].now > Now(t) - Age(Cell(ttl, longest)) ==>
              t.past[i].source != 0
  {
    var l := Cell(ttl, longest);
    s := State([Moment(0, 0)], map[], map[]);
    es := ReadThenDropped(l, s, longest);
    if ttl > 0 {
      es := LateLanding(ttl, longest, s, es);
      c := 1;
    } else {
      Lands(ttl, longest);
      ExecSnoc(l, s, es, Land(0));
      es, c := es + [Land(0)], 0;
    }
  }

  /** Every run returns only what the source held no more than `bound` before. */
  ghost predicate Keeps(l: Loader<int, (), int>, bound: nat)
  {
    forall s, es, c ::
      Start(s) && c in Exec(l, s, es).calls && Exec(l, s, es).calls[c].Done? && Exec(l, s, es).calls[c].result.Some? ==>
      HeldSince(l, Exec(l, s, es), (), Exec(l, s, es).calls[c].result.value, Exec(l, s, es).calls[c].at - bound)
  }

  lemma DroppedIsNotHeld(ttl: nat, longest: nat, t: State<int, (), int>, from: int)
    requires forall i :: 0 <= i < |t.past| && t.past[i].now >= from ==> t.past[i].source != 0
    ensures !HeldSince(Cell(ttl, longest), t, (), 0, from)
  {
    forall views | ReadSince(t, views, from) && |views| == 1 ensures Observed(t.past, views)[0] != 0 {
      assert t.past[views[0]].now >= from;
    }
  }

  /** The bound is exact: all runs keep it, and none lower. */
  lemma BoundIsExact(ttl: nat, longest: nat, bound: nat)
    ensures Keeps(Cell(ttl, longest), bound) <==> bound >= Age(Cell(ttl, longest))
  {
    var l := Cell(ttl, longest);
    if bound >= Age(l) {
      forall s, es, c | Start(s) && c in Exec(l, s, es).calls && Exec(l, s, es).calls[c].Done?
        && Exec(l, s, es).calls[c].result.Some?
        ensures HeldSince(l, Exec(l, s, es), (), Exec(l, s, es).calls[c].result.value,
                          Exec(l, s, es).calls[c].at - bound)
      {
        ReturnedIsRecent(l, s, es, c);
        var call := Exec(l, s, es).calls[c];
        HeldStays(l, Exec(l, s, es), Exec(l, s, es), (), call.result.value, call.at - Age(l), call.at - bound);
      }
    } else {
      var s, es, c := BoundIsReached(ttl, longest);
      DroppedIsNotHeld(ttl, longest, Exec(l, s, es), Exec(l, s, es).calls[c].at - bound);
    }
  }

  /** When a change is in force within one time to live: exactly when a fetch takes no time, or one tick
      of a time to live that is not zero. */
  lemma WithinOneTimeToLive(ttl: nat, longest: nat)
    ensures Keeps(Cell(ttl, longest), ttl) <==> longest == 0 || (longest == 1 && ttl > 0)
  {
    BoundIsExact(ttl, longest, ttl);
  }

  lemma Two<S, K, V>(l: Loader<S, K, V>, s: State<S, K, V>, es: seq<Event<S, K>>, a: Event<S, K>, b: Event<S, K>)
    returns (more: seq<Event<S, K>>)
    requires Valid(s)
    ensures Exec(l, s, more) == Apply(l, Apply(l, Exec(l, s, es), a), b)
  {
    ExecSnoc(l, s, es, a);
    ExecSnoc(l, s, es + [a], b);
    more := es + [a] + [b];
  }

  /** The source as it is read once, at the beginning. */
  function Asked(views: seq<nat>): State<int, (), int>
  {
    State([Moment(0, 0)], map[], map[0 := Fetching((), 0, views)])
  }

  lemma Asks(l: Loader<int, (), int>, s: State<int, (), int>)
    requires s == State([Moment(0, 0)], map[], map[])
    ensures Apply(l, Apply(l, s, Begin(0, ())), Read(0)) == Asked([0])
  {
    assert Apply(l, s, Begin(0, ())) == Asked([]);
    var none: seq<nat> := [];
    assert none + [0] == [0];
  }

  lemma Drops(l: Loader<int, (), int>, longest: nat)
    ensures var t := Apply(l, Apply(l, Asked([0]), Change(1)), Tick(longest));
            t == State(Dropped(longest), map[], map[0 := Fetching((), 0, [0])])
  {
  }

  lemma ReadThenDropped(l: Loader<int, (), int>, s: State<int, (), int>, longest: nat) returns (es: seq<Event<int, ()>>)
    requires s == State([Moment(0, 0)], map[], map[])
    ensures Exec(l, s, es) == State(Dropped(longest), map[], map[0 := Fetching((), 0, [0])])
  {
    Asks(l, s);
    es := Two(l, s, [], Begin(0, ()), Read(0));
    Drops(l, longest);
    es := Two(l, s, es, Change(1), Tick(longest));
  }

  function Dropped(longest: nat): seq<Moment<int>>
  {
    [Moment(0, 0), Moment(0, 1), Moment(longest, 1)]
  }

  function Landed(longest: nat): State<int, (), int>
  {
    State(Dropped(longest), map[() := Entry(0, longest)], map[0 := Done((), Some(0), longest)])
  }

  lemma Lands(ttl: nat, longest: nat)
    ensures Apply(Cell(ttl, longest), State(Dropped(longest), map[], map[0 := Fetching((), 0, [0])]), Land(0)) ==
            Landed(longest)
  {
  }

  lemma Hits(ttl: nat, longest: nat)
    requires ttl > 0
    ensures var t := Apply(Cell(ttl, longest), Apply(Cell(ttl, longest), Landed(longest), Tick(ttl - 1)), Begin(1, ()));
            && t.past == Dropped(longest) + [Moment(longest + ttl - 1, 1)]
            && 1 in t.calls && t.calls[1] == Done((), Some(0), longest + ttl - 1)
  {
  }

  lemma LateLanding(ttl: nat, longest: nat, s: State<int, (), int>, es: seq<Event<int, ()>>)
    returns (more: seq<Event<int, ()>>)
    requires ttl > 0 && Valid(s)
    requires Exec(Cell(ttl, longest), s, es) == State(Dropped(longest), map[], map[0 := Fetching((), 0, [0])])
    ensures var t := Exec(Cell(ttl, longest), s, more);
            && t.past == Dropped(longest) + [Moment(longest + ttl - 1, 1)]
            && 1 in t.calls && t.calls[1] == Done((), Some(0), longest + ttl - 1)
  {
    var l := Cell(ttl, longest);
    Lands(ttl, longest);
    Hits(ttl, longest);
    more := es + [Land(0)];
    ExecSnoc(l, s, es, Land(0));
    more := Two(l, s, more, Tick(ttl - 1), Begin(1, ()));
  }
}
