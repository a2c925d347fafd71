/**
 The tamper-evident audit log: the framed encoding of a row, the sequential fold over a period's
 rows, the anchor chain over the periods, and the verifier loop.

 The hash is any function from byte strings to 32-byte digests. What the theorems ask of it is asked
 only of the strings the computations in question really feed to it: no two of them collide, and
 none of them hashes to the all-zero genesis value. (A function onto 32 bytes cannot be injective on
 every string, so a blanket assumption would be empty.)
 */
module AuditHash {
  import opened Bytes

  function Zeros(n: nat): (r: ByteString)
    ensures |r| == n
  {
    if n == 0 then [] else [0] + Zeros(n - 1)
  }

  lemma {:induction false} ZerosAreZero(n: nat, i: nat)
    requires i < n
    ensures Zeros(n)[i] == 0
  {
    if i > 0 { ZerosAreZero(n - 1, i - 1); }
  }

  type Digest = d: ByteString | |d| == 32 witness Zeros(32)
  type Hash = ByteString -> Digest

  /** Thirty-two zero bytes. */
  function Genesis(): Digest { Zeros(32) }

  ghost predicate CollisionFree(h: Hash, hashed: set<ByteString>)
  {
    forall x, y :: x in hashed && y in hashed && h(x) == h(y) ==> x == y
  }

  ghost predicate NeverGenesis(h: Hash, hashed: set<ByteString>)
  {
    forall x :: x in hashed ==> h(x) != Genesis()
  }

  ghost predicate Trusted(h: Hash, hashed: set<ByteString>)
  {
    CollisionFree(h, hashed) && NeverGenesis(h, hashed)
  }
}

/** The fold `acc = H(acc || H(item))` over items of any kind, encoded by any function. */
module HashFold {
  import opened Bytes
  import opened AuditHash

  function Fold<T>(h: Hash, enc: T -> ByteString, items: seq<T>): Digest
  {
    if items == [] then Genesis()
    else h(Fold(h, enc, items[..|items| - 1]) + h(enc(items[|items| - 1])))
  }

  lemma FoldOfTwo<T>(h: Hash, enc: T -> ByteString, a: T, b: T)
    ensures Fold(h, enc, []) == Genesis()
    ensures Fold(h, enc, [a, b]) == h(h(Genesis() + h(enc(a))) + h(enc(b)))
  {
    var two := [a, b];
    assert two[..1] == [a] && two[1] == b && two[..1][..0] == [];
    assert Fold(h, enc, two[..1]) == h(Fold(h, enc, []) + h(enc(a)));
  }

  /** The strings the fold hashes on the way. */
  ghost function Queries<T>(h: Hash, enc: T -> ByteString, items: seq<T>): set<ByteString>
  {
    if items == [] then {}
    else
      var front, last := items[..|items| - 1], items[|items| - 1];
      Queries(h, enc, front) + {enc(last), Fold(h, enc, front) + h(enc(last))}
  }

  /** The encoding tells two items apart exactly when `same` does. */
  ghost predicate Exact<T(!new)>(enc: T -> ByteString, same: (T, T) -> bool, a: seq<T>, b: seq<T>)
  {
    forall i, j :: 0 <= i < |a| && 0 <= j < |b| ==> (enc(a[i]) == enc(b[j]) <==> same(a[i], b[j]))
  }

  ghost predicate Pointwise<T(!new)>(same: (T, T) -> bool, a: seq<T>, b: seq<T>)
  {
    |a| == |b| && forall i :: 0 <= i < |a| ==> same(a[i], b[i])
  }

  /** One link, as a fact about the hash alone. */
  lemma LinkIsExact(h: Hash, hashed: set<ByteString>, p: Digest, x: ByteString, q: Digest, y: ByteString)
    requires CollisionFree(h, hashed) && x in hashed && y in hashed
    requires p + h(x) in hashed && q + h(y) in hashed
    ensures h(p + h(x)) == h(q + h(y)) <==> p == q && x == y
  {
    var u, v := p + h(x), q + h(y);
    assert u[..32] == p && v[..32] == q && u[32..] == h(x) && v[32..] == h(y);
  }

  lemma LastQueries<T>(h: Hash, enc: T -> ByteString, items: seq<T>)
    requires items != []
    ensures var front, last := items[..|items| - 1], enc(items[|items| - 1]);
            && last in Queries(h, enc, items) && Fold(h, enc, front) + h(last) in Queries(h, enc, items)
            && Fold(h, enc, items) == h(Fold(h, enc, front) + h(last))
            && Queries(h, enc, front) <= Queries(h, enc, items)
  {
  }

  lemma PointwiseStep<T(!new)>(same: (T, T) -> bool, a: seq<T>, b: seq<T>)
    requires a != [] && b != []
    ensures Pointwise(same, a, b) <==>
            Pointwise(same, a[..|a| - 1], b[..|b| - 1]) && same(a[|a| - 1], b[|b| - 1])
  {
  }

  lemma {:induction false} FoldIsExact<T(!new)>(h: Hash, enc: T -> ByteString, same: (T, T) -> bool, a: seq<T>,
                                                b: seq<T>)
    requires Exact(enc, same, a, b) && Trusted(h, Queries(h, enc, a) + Queries(h, enc, b))
    ensures Fold(h, enc, a) == Fold(h, enc, b) <==> Pointwise(same, a, b)
    decreases |a|
  {
    if a != [] { LastQueries(h, enc, a); }
    if b != [] { LastQueries(h, enc, b); }
    if a != [] && b != [] {
      var c, d := a[..|a| - 1], b[..|b| - 1];
      assert Exact(enc, same, c, d);
      FoldIsExact(h, enc, same, c, d);
      LinkIsExact(h, Queries(h, enc, a) + Queries(h, enc, b),
                  Fold(h, enc, c), enc(a[|a| - 1]), Fold(h, enc, d), enc(b[|b| - 1]));
      PointwiseStep(same, a, b);
    }
  }
}

/** A chain of links, each naming the digest of the one before it; `body` is whatever it carries. */
module HashChain {
  import opened Bytes
  import opened AuditHash

  datatype Link = Link(prev: ByteString, body: ByteString, hash: ByteString)

  function GenesisHex(): (r: ByteString)
    ensures |r| == 64
  {
    Hex(Genesis())
  }

  function LinkHash(h: Hash, prev: ByteString, body: ByteString): (r: ByteString)
    ensures |r| == 64
  {
    Hex(h(prev + body))
  }

  function ExpectedPrev(links: seq<Link>, i: nat): ByteString
    requires i < |links|
  {
    if i == 0 then GenesisHex() else links[i - 1].hash
  }

  predicate LinkOk(h: Hash, links: seq<Link>, i: nat)
    requires i < |links|
  {
    links[i].prev == ExpectedPrev(links, i) && links[i].hash == LinkHash(h, links[i].prev, links[i].body)
  }

  predicate Linked(h: Hash, links: seq<Link>)
  {
    forall i :: 0 <= i < |links| ==> LinkOk(h, links, i)
  }

  ghost function ChainQueries(links: seq<Link>): set<ByteString>
  {
    set i | 0 <= i < |links| :: links[i].prev + links[i].body
  }

  /** A chain frames itself: neither end of what is hashed has a length prefix, but every back link is
      a 64-byte hex digest, so equal hashes mean equal links. */
  lemma EqualHashes(h: Hash, a: seq<Link>, b: seq<Link>, i: nat, j: nat)
    requires Linked(h, a) && Linked(h, b) && i < |a| && j < |b| && a[i].hash == b[j].hash
    requires CollisionFree(h, ChainQueries(a) + ChainQueries(b))
    ensures a[i] == b[j]
  {
    assert LinkOk(h, a, i) && LinkOk(h, b, j);
    var x, y := a[i].prev + a[i].body, b[j].prev + b[j].body;
    assert x in ChainQueries(a) && y in ChainQueries(b);
    HexInjective(h(x), h(y));
    BackLinkLength(h, a, i);
    BackLinkLength(h, b, j);
    SplitAt(a[i].prev, b[j].prev, a[i].body, b[j].body);
  }

  lemma BackLinkLength(h: Hash, links: seq<Link>, i: nat)
    requires Linked(h, links) && i < |links|
    ensures |links[i].prev| == 64
  {
    assert LinkOk(h, links, i);
    if i > 0 { assert LinkOk(h, links, i - 1); }
  }

  /** No link of a chain carries the genesis value as its hash. */
  lemma NoGenesisInside(h: Hash, links: seq<Link>, i: nat)
    requires Linked(h, links) && i < |links| && NeverGenesis(h, ChainQueries(links))
    ensures links[i].hash != GenesisHex()
  {
    assert LinkOk(h, links, i);
    var x := links[i].prev + links[i].body;
    assert x in ChainQueries(links);
    if Hex(h(x)) == GenesisHex() { HexInjective(h(x), Genesis()); }
  }

  lemma FrontIsLinked(h: Hash, links: seq<Link>)
    requires Linked(h, links) && links != []
    ensures Linked(h, links[..|links| - 1]) && ChainQueries(links[..|links| - 1]) <= ChainQueries(links)
  {
    var front := links[..|links| - 1];
    forall i | 0 <= i < |front| ensures LinkOk(h, front, i) {
      assert LinkOk(h, links, i) && ExpectedPrev(front, i) == ExpectedPrev(links, i);
    }
  }

  /** The last hash commits to the whole chain. */
  lemma {:induction false} HeadCommits(h: Hash, a: seq<Link>, b: seq<Link>)
    requires Linked(h, a) && Linked(h, b) && Trusted(h, ChainQueries(a) + ChainQueries(b))
    requires a != [] && b != [] && a[|a| - 1].hash == b[|b| - 1].hash
    ensures a == b
    decreases |a|
  {
    var m, n := |a| - 1, |b| - 1;
    EqualHashes(h, a, b, m, n);
    assert LinkOk(h, a, m) && LinkOk(h, b, n);
    if m > 0 { NoGenesisInside(h, a, m - 1); }
    if n > 0 { NoGenesisInside(h, b, n - 1); }
    if m > 0 {
      FrontIsLinked(h, a);
      FrontIsLinked(h, b);
      HeadCommits(h, a[..m], b[..n]);
    }
    assert a == a[..m] + [a[m]] && b == b[..n] + [b[n]];
  }

  /** Taking one link out of a chain breaks it exactly when it is not the last one. */
  lemma RemovalBreaks(h: Hash, links: seq<Link>, i: nat)
    requires Linked(h, links) && i < |links| && Trusted(h, ChainQueries(links))
    ensures Linked(h, links[..i] + links[i + 1..]) <==> i == |links| - 1
  {
    var rest := links[..i] + links[i + 1..];
    if i == |links| - 1 {
      assert rest == links[..i];
      FrontIsLinked(h, links);
    } else {
      forall k | 0 <= k < |rest| ensures rest[k].prev + rest[k].body in ChainQueries(links) {
        assert rest[k] == if k < i then links[k] else links[k + 1];
      }
      assert ChainQueries(rest) + ChainQueries(links) == ChainQueries(links);
      assert rest[|rest| - 1] == links[|links| - 1];
      if Linked(h, rest) { HeadCommits(h, rest, links); }
    }
  }
}

module AuditRows {
  import opened Options
  import opened Bytes
  import opened CanonicalJson
  import opened AuditHash
  import HashFold

  /** `occurredAt` counts nanoseconds; the encoding keeps whole microseconds. */
  datatype AuditRow = AuditRow(
    eventId: ByteString, schemaName: ByteString, model: ByteString, operation: ByteString,
    primaryKey: Json, actor: Json, tenant: Option<ByteString>,
    before: Option<Json>, after: Option<Json>, requestId: Option<ByteString>, occurredAt: int)

  function Micros(nanos: int): int { nanos / 1000 }

  function CanonicalOf(v: Option<Json>): Option<ByteString>
  {
    match v case None => None case Some(j) => Some(Canonical(j))
  }

  /** A presence byte, then the frame when there is one. */
  function FramedOption(v: Option<ByteString>): ByteString
  {
    match v case None => [0] case Some(b) => [1] + Framed(b)
  }

  /** Every byte `hash_audit_row` feeds to the hasher, in order. */
  function RowBytes(row: AuditRow): ByteString
  {
    Framed(row.eventId) + (Framed(row.schemaName) + (Framed(row.model) + (Framed(row.operation) + RowTail(row))))
  }

  function RowTail(row: AuditRow): ByteString
  {
    Framed(Canonical(row.primaryKey)) + (Framed(Canonical(row.actor)) + RowOptions(row))
  }

  function RowOptions(row: AuditRow): ByteString
  {
    FramedOption(row.tenant) + (FramedOption(CanonicalOf(row.before)) + (FramedOption(CanonicalOf(row.after))
    + (FramedOption(row.requestId) + Word(Micros(row.occurredAt)))))
  }

  predicate OptionFits(v: Option<ByteString>)
  {
    v.Some? ==> InU64(|v.value|)
  }

  predicate JsonFits(v: Json)
  {
    WellFormed(v) && InU64(|Canonical(v)|)
  }

  predicate OptionJsonFits(v: Option<Json>)
  {
    v.Some? ==> JsonFits(v.value)
  }

  /** What the Rust types already say: lengths fit `u64`, the time fits `i64`, JSON is JSON. */
  predicate Fits(row: AuditRow)
  {
    && InU64(|row.eventId|) && InU64(|row.schemaName|) && InU64(|row.model|) && InU64(|row.operation|)
    && JsonFits(row.primaryKey) && JsonFits(row.actor)
    && OptionFits(row.tenant) && OptionJsonFits(row.before) && OptionJsonFits(row.after)
    && OptionFits(row.requestId) && InI64(Micros(row.occurredAt))
  }

  predicate SameJson(a: Option<Json>, b: Option<Json>)
  {
    match a
    case None => b.None?
    case Some(v) => b.Some? && Mean(v) == Mean(b.value)
  }

  /** The same row, up to the order of JSON keys and below the microsecond. */
  predicate SameRow(a: AuditRow, b: AuditRow)
  {
    && a.eventId == b.eventId && a.schemaName == b.schemaName && a.model == b.model
    && a.operation == b.operation && Mean(a.primaryKey) == Mean(b.primaryKey)
    && Mean(a.actor) == Mean(b.actor) && a.tenant == b.tenant && SameJson(a.before, b.before)
    && SameJson(a.after, b.after) && a.requestId == b.requestId
    && Micros(a.occurredAt) == Micros(b.occurredAt)
  }

  lemma OptionIsPrefixFree(a: Option<ByteString>, b: Option<ByteString>, r: ByteString, s: ByteString)
    requires OptionFits(a) && OptionFits(b)
    requires FramedOption(a) + r == FramedOption(b) + s
    ensures a == b && r == s
  {
    assert (FramedOption(a) + r)[0] == FramedOption(a)[0] && (FramedOption(b) + s)[0] == FramedOption(b)[0];
    match a
    case None => Cancel([0], r, s);
    case Some(x) =>
      Regroup([1], Framed(x), r);
      Regroup([1], Framed(b.value), s);
      Cancel([1], Framed(x) + r, Framed(b.value) + s);
      FramedIsPrefixFree(x, b.value, r, s);
  }

  lemma OptionJsonIsExact(a: Option<Json>, b: Option<Json>)
    requires OptionJsonFits(a) && OptionJsonFits(b)
    ensures CanonicalOf(a) == CanonicalOf(b) <==> SameJson(a, b)
  {
    if a.Some? && b.Some? { CanonicalIsExact(a.value, b.value); }
  }

  lemma OptionsAreExact(a: AuditRow, b: AuditRow)
    requires Fits(a) && Fits(b) && RowOptions(a) == RowOptions(b)
    ensures a.tenant == b.tenant && a.requestId == b.requestId
    ensures CanonicalOf(a.before) == CanonicalOf(b.before) && CanonicalOf(a.after) == CanonicalOf(b.after)
    ensures Micros(a.occurredAt) == Micros(b.occurredAt)
  {
    var ta, tb := Word(Micros(a.occurredAt)), Word(Micros(b.occurredAt));
    var qa, qb := FramedOption(a.requestId) + ta, FramedOption(b.requestId) + tb;
    var pa, pb := FramedOption(CanonicalOf(a.after)) + qa, FramedOption(CanonicalOf(b.after)) + qb;
    var oa, ob := FramedOption(CanonicalOf(a.before)) + pa, FramedOption(CanonicalOf(b.before)) + pb;
    OptionIsPrefixFree(a.tenant, b.tenant, oa, ob);
    OptionIsPrefixFree(CanonicalOf(a.before), CanonicalOf(b.before), pa, pb);
    OptionIsPrefixFree(CanonicalOf(a.after), CanonicalOf(b.after), qa, qb);
    OptionIsPrefixFree(a.requestId, b.requestId, ta, tb);
    WordInjective(Micros(a.occurredAt), Micros(b.occurredAt));
  }

  lemma TailIsExact(a: AuditRow, b: AuditRow)
    requires Fits(a) && Fits(b) && RowTail(a) == RowTail(b)
    ensures Canonical(a.primaryKey) == Canonical(b.primaryKey) && Canonical(a.actor) == Canonical(b.actor)
    ensures RowOptions(a) == RowOptions(b)
  {
    var aa, ab := Framed(Canonical(a.actor)) + RowOptions(a), Framed(Canonical(b.actor)) + RowOptions(b);
    FramedIsPrefixFree(Canonical(a.primaryKey), Canonical(b.primaryKey), aa, ab);
    FramedIsPrefixFree(Canonical(a.actor), Canonical(b.actor), RowOptions(a), RowOptions(b));
  }

  lemma HeadIsExact(a: AuditRow, b: AuditRow)
    requires Fits(a) && Fits(b) && RowBytes(a) == RowBytes(b)
    ensures a.eventId == b.eventId && a.schemaName == b.schemaName && a.model == b.model
    ensures a.operation == b.operation && RowTail(a) == RowTail(b)
  {
    var oa, ob := Framed(a.operation) + RowTail(a), Framed(b.operation) + RowTail(b);
    var ma, mb := Framed(a.model) + oa, Framed(b.model) + ob;
    var sa, sb := Framed(a.schemaName) + ma, Framed(b.schemaName) + mb;
    FramedIsPrefixFree(a.eventId, b.eventId, sa, sb);
    FramedIsPrefixFree(a.schemaName, b.schemaName, ma, mb);
    FramedIsPrefixFree(a.model, b.model, oa, ob);
    FramedIsPrefixFree(a.operation, b.operation, RowTail(a), RowTail(b));
  }

  /** The bytes of a row say which row it is, and nothing they leave out counts. */
  lemma RowBytesAreExact(a: AuditRow, b: AuditRow)
    requires Fits(a) && Fits(b)
    ensures RowBytes(a) == RowBytes(b) <==> SameRow(a, b)
    ensures RowBytes(a) == RowBytes(b) ==>
              && (a.eventId, a.schemaName, a.model, a.operation) == (b.eventId, b.schemaName, b.model, b.operation)
              && (a.tenant, a.requestId) == (b.tenant, b.requestId) && a.occurredAt / 1000 == b.occurredAt / 1000
              && Mean(a.primaryKey) == Mean(b.primaryKey) && Mean(a.actor) == Mean(b.actor)
              && a.before.Some? == b.before.Some? && (a.before.Some? ==> Mean(a.before.value) == Mean(b.before.value))
              && a.after.Some? == b.after.Some? && (a.after.Some? ==> Mean(a.after.value) == Mean(b.after.value))
  {
    CanonicalIsExact(a.primaryKey, b.primaryKey);
    CanonicalIsExact(a.actor, b.actor);
    OptionJsonIsExact(a.before, b.before);
    OptionJsonIsExact(a.after, b.after);
    if RowBytes(a) == RowBytes(b) {
      HeadIsExact(a, b);
      TailIsExact(a, b);
      OptionsAreExact(a, b);
    }
  }

  // ----- the fold -----

  /** A row of one-byte values, to show where each goes. */
  function SampleRow(): AuditRow
  {
    AuditRow([1], [2], [3], [4], Null, Bool(true), Some([5]), None, Some(Null), Some([6]), 7_000)
  }

  function Short(b: Byte): ByteString { [0, 0, 0, 0, 0, 0, 0, 1, b] }

  lemma ShortIsFramed(b: Byte)
    ensures Framed([b]) == Short(b)
  {
    SmallFrame([b]);
  }

  function NullOnTheWire(): ByteString { [0, 0, 0, 0, 0, 0, 0, 4, 110, 117, 108, 108] }

  function TrueOnTheWire(): ByteString { [0, 0, 0, 0, 0, 0, 0, 4, 116, 114, 117, 101] }

  lemma LiteralsOnTheWire()
    ensures Framed(Canonical(Null)) == NullOnTheWire() && Framed(Canonical(Bool(true))) == TrueOnTheWire()
  {
    SmallFrame([110, 117, 108, 108]);
    SmallFrame([116, 114, 117, 101]);
  }

  lemma ValuesOnTheWire()
    ensures FramedOption(Some([5])) == [1] + Short(5) && FramedOption(Some([6])) == [1] + Short(6)
    ensures FramedOption(CanonicalOf(Some(Null))) == [1] + NullOnTheWire()
    ensures FramedOption(CanonicalOf(None)) == [0] && Word(Micros(7_000)) == SevenOnTheWire()
  {
    ShortIsFramed(5);
    ShortIsFramed(6);
    SmallWords(7);
    LiteralsOnTheWire();
  }

  function SevenOnTheWire(): ByteString { [0, 0, 0, 0, 0, 0, 0, 7] }

  lemma OptionsOnTheWire(row: AuditRow)
    requires row == SampleRow()
    ensures RowOptions(row) ==
            ([1] + Short(5)) + ([0] + (([1] + NullOnTheWire()) + (([1] + Short(6)) + SevenOnTheWire())))
  {
    ValuesOnTheWire();
  }

  /** One row written out: the event, the schema, the model and the operation, the key and the actor, the tenant, the
      row before and after, the request, and the microseconds. */
  lemma RowOnTheWire()
    ensures RowBytes(SampleRow()) ==
            Short(1) + (Short(2) + (Short(3) + (Short(4) + (NullOnTheWire() + (TrueOnTheWire()
            + (([1] + Short(5)) + ([0] + (([1] + NullOnTheWire()) + (([1] + Short(6)) + SevenOnTheWire())))))))))
  {
    ShortIsFramed(1);
    ShortIsFramed(2);
    ShortIsFramed(3);
    ShortIsFramed(4);
    LiteralsOnTheWire();
    OptionsOnTheWire(SampleRow());
  }

  function RowHash(h: Hash, row: AuditRow): Digest { h(RowBytes(row)) }

  function FoldRows(h: Hash, rows: seq<AuditRow>): Digest
  {
    HashFold.Fold(h, RowBytes, rows)
  }

  /** Two rows folded, from the genesis value. */
  lemma FoldOnTheWire(h: Hash, a: AuditRow, b: AuditRow)
    ensures FoldRows(h, []) == Genesis()
    ensures FoldRows(h, [a, b]) == h(h(Genesis() + h(RowBytes(a))) + h(RowBytes(b)))
  {
    HashFold.FoldOfTwo(h, RowBytes, a, b);
  }

  ghost function FoldQueries(h: Hash, rows: seq<AuditRow>): set<ByteString>
  {
    HashFold.Queries(h, RowBytes, rows)
  }

  predicate AllFit(rows: seq<AuditRow>)
  {
    forall i :: 0 <= i < |rows| ==> Fits(rows[i])
  }

  predicate SameRows(a: seq<AuditRow>, b: seq<AuditRow>)
  {
    |a| == |b| && forall i :: 0 <= i < |a| ==> SameRow(a[i], b[i])
  }

  /** The fold commits to the whole list: equal digests exactly when the rows are the same, in the
      same number and the same order, up to JSON key order and below the microsecond. */
  lemma FoldCommits(h: Hash, a: seq<AuditRow>, b: seq<AuditRow>)
    requires AllFit(a) && AllFit(b) && Trusted(h, FoldQueries(h, a) + FoldQueries(h, b))
    ensures FoldRows(h, a) == FoldRows(h, b) <==> SameRows(a, b)
  {
    forall i, j | 0 <= i < |a| && 0 <= j < |b|
      ensures RowBytes(a[i]) == RowBytes(b[j]) <==> SameRow(a[i], b[j])
    {
      RowBytesAreExact(a[i], b[j]);
    }
    HashFold.FoldIsExact(h, RowBytes, SameRow, a, b);
  }
}

/** The hashing code as the program runs it: writers that feed an incremental hasher, and a loop. */
module AuditHasher {
  import opened Options
  import opened Bytes
  import opened CanonicalJson
  import opened AuditHash
  import opened AuditRows

  /** An incremental hasher; `fed` is what it has absorbed. */
  class Sha256 {
    var fed: ByteString

    constructor ()
      ensures fed == []
    {
      fed := [];
    }

    method Update(bytes: ByteString)
      modifies this
      ensures fed == old(fed) + bytes
    {
      fed := fed + bytes;
    }

    method WriteLenPrefixed(bytes: ByteString)
      modifies this
      ensures fed == old(fed) + Framed(bytes)
    {
      Update(Word(|bytes|));
      Update(bytes);
    }

    method WriteOptionalStr(value: Option<ByteString>)
      modifies this
      ensures fed == old(fed) + FramedOption(value)
    {
      match value
      case Some(text) =>
        Update([1]);
        WriteLenPrefixed(text);
      case None => Update([0]);
    }
  }

  lemma Nest(o: ByteString, a: ByteString, b: ByteString, c: ByteString)
    ensures ((o + a) + b) + c == o + (a + (b + c))
  {
  }

  method FeedNames(hasher: Sha256, row: AuditRow)
    modifies hasher
    ensures hasher.fed + RowTail(row) == old(hasher.fed) + RowBytes(row)
  {
    hasher.WriteLenPrefixed(row.eventId);
    hasher.WriteLenPrefixed(row.schemaName);
    ghost var half := hasher.fed;
    hasher.WriteLenPrefixed(row.model);
    hasher.WriteLenPrefixed(row.operation);
    ghost var rest := Framed(row.model) + (Framed(row.operation) + RowTail(row));
    Nest(half, Framed(row.model), Framed(row.operation), RowTail(row));
    Nest(old(hasher.fed), Framed(row.eventId), Framed(row.schemaName), rest);
  }

  method FeedDocuments(hasher: Sha256, row: AuditRow)
    modifies hasher
    ensures hasher.fed + RowOptions(row) == old(hasher.fed) + RowTail(row)
  {
    hasher.WriteLenPrefixed(Canonical(row.primaryKey));
    hasher.WriteLenPrefixed(Canonical(row.actor));
    Nest(old(hasher.fed), Framed(Canonical(row.primaryKey)), Framed(Canonical(row.actor)), RowOptions(row));
  }

  method FeedOptions(hasher: Sha256, row: AuditRow)
    modifies hasher
    ensures hasher.fed == old(hasher.fed) + RowOptions(row)
  {
    hasher.WriteOptionalStr(row.tenant);
    hasher.WriteOptionalStr(CanonicalOf(row.before));
    ghost var half := hasher.fed;
    hasher.WriteOptionalStr(CanonicalOf(row.after));
    hasher.WriteOptionalStr(row.requestId);
    hasher.Update(Word(Micros(row.occurredAt)));
    ghost var after, request := FramedOption(CanonicalOf(row.after)), FramedOption(row.requestId);
    Nest(half, after, request, Word(Micros(row.occurredAt)));
    Nest(old(hasher.fed), FramedOption(row.tenant), FramedOption(CanonicalOf(row.before)),
         after + (request + Word(Micros(row.occurredAt))));
  }

  method HashAuditRow(h: Hash, row: AuditRow) returns (digest: Digest)
    ensures digest == RowHash(h, row)
  {
    var hasher := new Sha256();
    FeedNames(hasher, row);
    FeedDocuments(hasher, row);
    FeedOptions(hasher, row);
    assert [] + RowBytes(row) == RowBytes(row);
    digest := h(hasher.fed);
  }

  method FoldAuditRows(h: Hash, rows: seq<AuditRow>) returns (acc: Digest)
    ensures acc == FoldRows(h, rows)
  {
    acc := Genesis();
    for i := 0 to |rows|
      invariant acc == FoldRows(h, rows[..i])
    {
      var rowHash := HashAuditRow(h, rows[i]);
      var hasher := new Sha256();
      hasher.Update(acc);
      hasher.Update(rowHash);
      assert hasher.fed == acc + rowHash;
      acc := h(hasher.fed);
      ghost var seen := rows[..i + 1];
      assert seen[..|seen| - 1] == rows[..i] && seen[|seen| - 1] == rows[i];
    }
    assert rows[..|rows|] == rows;
  }
}

module AuditChain {
  import opened Options
  import opened Bytes
  import opened AuditHash
  import opened AuditRows
  import opened HashChain

  /** Times count nanoseconds, as in a row. `id` is not part of what an anchor commits to. */
  datatype Anchor = Anchor(
    id: string, prevChainHash: ByteString, periodStart: Option<int>, periodEnd: int,
    rowCount: int, rangeHash: ByteString, chainHash: ByteString)

  function StartBytes(start: Option<int>): ByteString
  {
    match start case Some(t) => [1] + Word(Micros(t)) case None => [0]
  }

  /** What `compute_chain_hash_hex` hashes after the back link. The range hash is not framed. */
  function OwnBytes(a: Anchor): ByteString
  {
    StartBytes(a.periodStart) + (Word(Micros(a.periodEnd)) + (Word(a.rowCount) + a.rangeHash))
  }

  function ChainHash(h: Hash, a: Anchor): ByteString
  {
    LinkHash(h, a.prevChainHash, OwnBytes(a))
  }

  /** One anchor written out: the link back, where its period starts and ends, how many rows, and what they fold to;
      its hash is the hexadecimal digest of that. */
  lemma AnchorOnTheWire(h: Hash, id: string, prev: ByteString, range: ByteString, hash: ByteString)
    ensures ChainHash(h, Anchor(id, prev, Some(1_000), 2_000, 3, range, hash)) ==
            Hex(h(prev + ([1, 0, 0, 0, 0, 0, 0, 0, 1]
                          + ([0, 0, 0, 0, 0, 0, 0, 2] + ([0, 0, 0, 0, 0, 0, 0, 3] + range)))))
    ensures ChainHash(h, Anchor(id, prev, None, 2_000, 3, range, hash)) ==
            Hex(h(prev + ([0] + ([0, 0, 0, 0, 0, 0, 0, 2] + ([0, 0, 0, 0, 0, 0, 0, 3] + range)))))
  {
    SmallWords(1);
    SmallWords(2);
    SmallWords(3);
    assert StartBytes(Some(1_000)) == [1, 0, 0, 0, 0, 0, 0, 0, 1];
  }

  function LinkOf(a: Anchor): Link { Link(a.prevChainHash, OwnBytes(a), a.chainHash) }

  function LinksOf(anchors: seq<Anchor>): (r: seq<Link>)
    ensures |r| == |anchors|
    ensures forall i :: 0 <= i < |r| ==> r[i] == LinkOf(anchors[i])
  {
    seq(|anchors|, i requires 0 <= i < |anchors| => LinkOf(anchors[i]))
  }

  /** Every anchor points at the one before it and hashes to what it says. */
  predicate WellLinked(h: Hash, anchors: seq<Anchor>)
  {
    Linked(h, LinksOf(anchors))
  }

  datatype Break =
    | PrevMismatch(id: string, found: ByteString, expected: ByteString)
    | HashMismatch(id: string, found: ByteString, recomputed: ByteString)

  function PrevBreak(id: string, found: ByteString, expected: ByteString): seq<Break>
  {
    if found == expected then [] else [PrevMismatch(id, found, expected)]
  }

  function HashBreak(id: string, found: ByteString, recomputed: ByteString): seq<Break>
  {
    if found == recomputed then [] else [HashMismatch(id, found, recomputed)]
  }

  /** What is wrong with anchor `i`: its back link, its own hash. */
  function BreaksAt(h: Hash, anchors: seq<Anchor>, i: nat): seq<Break>
    requires i < |anchors|
  {
    var a := anchors[i];
    PrevBreak(a.id, a.prevChainHash, if i == 0 then GenesisHex() else anchors[i - 1].chainHash)
    + HashBreak(a.id, a.chainHash, ChainHash(h, a))
  }

  /** The findings of positions 0 to `n - 1`, each once, in order. */
  function Gather(at: nat -> seq<Break>, n: nat): seq<Break>
  {
    if n == 0 then [] else Gather(at, n - 1) + at(n - 1)
  }

  lemma {:induction false} GatherIsEmpty(at: nat -> seq<Break>, n: nat)
    ensures |Gather(at, n)| == 0 <==> forall i: nat :: i < n ==> |at(i)| == 0
  {
    if n > 0 { GatherIsEmpty(at, n - 1); }
  }

  function FindingsOf(h: Hash, anchors: seq<Anchor>): nat -> seq<Break>
  {
    (i: nat) => if i < |anchors| then BreaksAt(h, anchors, i) else []
  }

  /** What is wrong with the chain, oldest anchor first. */
  function Breaks(h: Hash, anchors: seq<Anchor>): seq<Break>
  {
    Gather(FindingsOf(h, anchors), |anchors|)
  }

  lemma NoBreakAt(h: Hash, anchors: seq<Anchor>, i: nat)
    requires i < |anchors|
    ensures |BreaksAt(h, anchors, i)| == 0 <==> LinkOk(h, LinksOf(anchors), i)
  {
  }

  /** No finding at all exactly when the chain is well linked. */
  lemma NoBreaks(h: Hash, anchors: seq<Anchor>)
    ensures Breaks(h, anchors) == [] <==> WellLinked(h, anchors)
  {
    GatherIsEmpty(FindingsOf(h, anchors), |anchors|);
    forall i: nat | i < |anchors|
      ensures |FindingsOf(h, anchors)(i)| == 0 <==> LinkOk(h, LinksOf(anchors), i)
    {
      NoBreakAt(h, anchors, i);
    }
  }

  lemma GatherStep(at: nat -> seq<Break>, i: nat)
    ensures Gather(at, i + 1) == Gather(at, i) + at(i)
  {
  }

  function ExpectedBy(anchors: seq<Anchor>, i: nat): ByteString
    requires i <= |anchors|
  {
    if i == 0 then GenesisHex() else anchors[i - 1].chainHash
  }

  /** One more anchor adds its own findings. */
  lemma FindingsStep(h: Hash, anchors: seq<Anchor>, i: nat)
    requires i < |anchors|
    ensures var a := anchors[i];
            Gather(FindingsOf(h, anchors), i + 1) ==
            Gather(FindingsOf(h, anchors), i)
            + (PrevBreak(a.id, a.prevChainHash, ExpectedBy(anchors, i)) + HashBreak(a.id, a.chainHash, ChainHash(h, a)))
  {
    GatherStep(FindingsOf(h, anchors), i);
  }

  method CheckAnchor(h: Hash, anchor: Anchor, expected: ByteString) returns (found: seq<Break>)
    ensures found == PrevBreak(anchor.id, anchor.prevChainHash, expected)
                     + HashBreak(anchor.id, anchor.chainHash, ChainHash(h, anchor))
  {
    found := [];
    if anchor.prevChainHash != expected {
      found := [PrevMismatch(anchor.id, anchor.prevChainHash, expected)];
    }
    var recomputed := ChainHash(h, anchor);
    if recomputed != anchor.chainHash {
      found := found + [HashMismatch(anchor.id, anchor.chainHash, recomputed)];
    }
  }

  /** The verifier loop. It reports every broken back link and every anchor that does not hash to
      itself, oldest first, and so reports nothing exactly when the chain is well linked. */
  method VerifyChainLinkage(h: Hash, anchors: seq<Anchor>) returns (breaks: seq<Break>)
    ensures breaks == Breaks(h, anchors)
    ensures breaks == [] <==> WellLinked(h, anchors)
  {
    breaks := [];
    var previousChainHash: Option<ByteString> := None;
    for i := 0 to |anchors|
      invariant previousChainHash == if i == 0 then None else Some(anchors[i - 1].chainHash)
      invariant breaks == Gather(FindingsOf(h, anchors), i)
    {
      var expected := if previousChainHash.Some? then previousChainHash.value else GenesisHex();
      var found := CheckAnchor(h, anchors[i], expected);
      FindingsStep(h, anchors, i);
      breaks := breaks + found;
      previousChainHash := Some(anchors[i].chainHash);
    }
    NoBreaks(h, anchors);
  }

  predicate AnchorFits(a: Anchor)
  {
    && (a.periodStart.Some? ==> InI64(Micros(a.periodStart.value)))
    && InI64(Micros(a.periodEnd)) && InI64(a.rowCount)
  }

  predicate AnchorsFit(anchors: seq<Anchor>)
  {
    forall i :: 0 <= i < |anchors| ==> AnchorFits(anchors[i])
  }

  function StartMicros(start: Option<int>): Option<int>
  {
    match start case Some(t) => Some(Micros(t)) case None => None
  }

  /** The same anchor in everything but its row id and below the microsecond. */
  predicate SameAnchor(a: Anchor, b: Anchor)
  {
    && a.prevChainHash == b.prevChainHash && StartMicros(a.periodStart) == StartMicros(b.periodStart)
    && Micros(a.periodEnd) == Micros(b.periodEnd) && a.rowCount == b.rowCount
    && a.rangeHash == b.rangeHash && a.chainHash == b.chainHash
  }

  predicate SameChain(a: seq<Anchor>, b: seq<Anchor>)
  {
    |a| == |b| && forall i :: 0 <= i < |a| ==> SameAnchor(a[i], b[i])
  }

  ghost function AnchorQueries(anchors: seq<Anchor>): set<ByteString>
  {
    ChainQueries(LinksOf(anchors))
  }

  lemma StartIsExact(a: Option<int>, b: Option<int>, r: ByteString, s: ByteString)
    requires (a.Some? ==> InI64(Micros(a.value))) && (b.Some? ==> InI64(Micros(b.value)))
    requires StartBytes(a) + r == StartBytes(b) + s
    ensures StartMicros(a) == StartMicros(b) && r == s
  {
    assert (StartBytes(a) + r)[0] == StartBytes(a)[0] && (StartBytes(b) + s)[0] == StartBytes(b)[0];
    SplitAt(StartBytes(a), StartBytes(b), r, s);
    if a.Some? {
      Cancel([1], Word(Micros(a.value)), Word(Micros(b.value)));
      WordInjective(Micros(a.value), Micros(b.value));
    }
  }

  lemma OwnBytesAreExact(a: Anchor, b: Anchor)
    requires AnchorFits(a) && AnchorFits(b) && OwnBytes(a) == OwnBytes(b)
    ensures StartMicros(a.periodStart) == StartMicros(b.periodStart) && a.rowCount == b.rowCount
    ensures Micros(a.periodEnd) == Micros(b.periodEnd) && a.rangeHash == b.rangeHash
  {
    var ea, eb := Word(Micros(a.periodEnd)), Word(Micros(b.periodEnd));
    var ra, rb := Word(a.rowCount) + a.rangeHash, Word(b.rowCount) + b.rangeHash;
    StartIsExact(a.periodStart, b.periodStart, ea + ra, eb + rb);
    SplitAt(ea, eb, ra, rb);
    SplitAt(Word(a.rowCount), Word(b.rowCount), a.rangeHash, b.rangeHash);
    WordInjective(Micros(a.periodEnd), Micros(b.periodEnd));
    WordInjective(a.rowCount, b.rowCount);
  }

  /** The newest anchor commits to the whole chain: two break-free chains that end in the same
      `chainHash` are the same chain, anchor by anchor. */
  lemma NewestAnchorCommits(h: Hash, a: seq<Anchor>, b: seq<Anchor>)
    requires WellLinked(h, a) && WellLinked(h, b) && AnchorsFit(a) && AnchorsFit(b)
    requires Trusted(h, AnchorQueries(a) + AnchorQueries(b))
    requires a != [] && b != [] && a[|a| - 1].chainHash == b[|b| - 1].chainHash
    ensures SameChain(a, b)
  {
    HashChain.HeadCommits(h, LinksOf(a), LinksOf(b));
    forall i | 0 <= i < |a| ensures SameAnchor(a[i], b[i]) {
      assert LinkOf(a[i]) == LinksOf(a)[i] == LinksOf(b)[i] == LinkOf(b[i]);
      OwnBytesAreExact(a[i], b[i]);
    }
  }

  /** Taking one anchor out of a break-free chain is reported exactly when it is not the newest one. */
  lemma RemovalIsReported(h: Hash, anchors: seq<Anchor>, i: nat)
    requires WellLinked(h, anchors) && i < |anchors| && Trusted(h, AnchorQueries(anchors))
    ensures var rest := anchors[..i] + anchors[i + 1..];
            Breaks(h, rest) != [] <==> i < |anchors| - 1
  {
    var rest := anchors[..i] + anchors[i + 1..];
    assert LinksOf(rest) == LinksOf(anchors)[..i] + LinksOf(anchors)[i + 1..];
    RemovalBreaks(h, LinksOf(anchors), i);
    NoBreaks(h, rest);
  }
}

/**
 The table under the chain: which rows an anchor's period selects, what the whole chain says of the
 table, and the job that adds an anchor. A table is its rows in the order they are read, by time and
 then by event id.
 */
module AuditLog {
  import opened Options
  import opened Bytes
  import opened AuditHash
  import opened AuditRows
  import opened HashChain
  import opened AuditChain

  type Table = seq<AuditRow>

  /** `(periodStart, periodEnd]`, with no lower bound for the first period. */
  predicate InPeriod(row: AuditRow, start: Option<int>, end: int)
  {
    (start.Some? ==> row.occurredAt > start.value) && row.occurredAt <= end
  }

  /** `rows_in_period`. */
  function RowsIn(log: Table, start: Option<int>, end: int): seq<AuditRow>
  {
    if |log| == 0 then []
    else
      var last := log[|log| - 1];
      RowsIn(log[..|log| - 1], start, end) + if InPeriod(last, start, end) then [last] else []
  }

  predicate InOrder(log: Table)
  {
    forall i, j :: 0 <= i < j < |log| ==> log[i].occurredAt <= log[j].occurredAt
  }

  function Period(log: Table, a: Anchor): seq<AuditRow> { RowsIn(log, a.periodStart, a.periodEnd) }

  /** `verify_period_content`: the anchored digest is what the period's rows fold to. */
  predicate ContentVerified(h: Hash, anchor: Anchor, log: Table)
  {
    Hex(FoldRows(h, Period(log, anchor))) == anchor.rangeHash
  }

  /** A log that checks out from end to end: the chain has no break and every period its content. */
  predicate LogVerified(h: Hash, anchors: seq<Anchor>, log: Table)
  {
    WellLinked(h, anchors) && forall i :: 0 <= i < |anchors| ==> ContentVerified(h, anchors[i], log)
  }

  ghost predicate LogTrusted(h: Hash, a: seq<Anchor>, log: Table, b: seq<Anchor>, other: Table)
  {
    && Trusted(h, AnchorQueries(a) + AnchorQueries(b))
    && forall i :: 0 <= i < |a| && i < |b| ==>
      Trusted(h, FoldQueries(h, Period(log, a[i])) + FoldQueries(h, Period(other, b[i])))
  }

  lemma {:induction false} SelectedFit(log: Table, start: Option<int>, end: int)
    requires AllFit(log)
    ensures AllFit(RowsIn(log, start, end))
  {
    if |log| > 0 { SelectedFit(log[..|log| - 1], start, end); }
  }

  lemma SameContent(h: Hash, a: Anchor, log: Table, b: Anchor, other: Table)
    requires ContentVerified(h, a, log) && ContentVerified(h, b, other) && a.rangeHash == b.rangeHash
    requires AllFit(log) && AllFit(other)
             && Trusted(h, FoldQueries(h, Period(log, a)) + FoldQueries(h, Period(other, b)))
    ensures SameRows(Period(log, a), Period(other, b))
  {
    SelectedFit(log, a.periodStart, a.periodEnd);
    SelectedFit(other, b.periodStart, b.periodEnd);
    HexInjective(FoldRows(h, Period(log, a)), FoldRows(h, Period(other, b)));
    FoldCommits(h, Period(log, a), Period(other, b));
  }

  /** One digest commits to every row of every period: two tables whose chains and contents check out and
      end in the same `chainHash` hold the same rows, period by period, in the same order. */
  lemma LogCommits(h: Hash, a: seq<Anchor>, log: Table, b: seq<Anchor>, other: Table)
    requires LogVerified(h, a, log) && LogVerified(h, b, other) && LogTrusted(h, a, log, b, other)
    requires AnchorsFit(a) && AnchorsFit(b) && AllFit(log) && AllFit(other)
    requires a != [] && b != [] && a[|a| - 1].chainHash == b[|b| - 1].chainHash
    ensures |a| == |b| && forall i :: 0 <= i < |a| ==> SameRows(Period(log, a[i]), Period(other, b[i]))
  {
    NewestAnchorCommits(h, a, b);
    forall i | 0 <= i < |a| ensures SameRows(Period(log, a[i]), Period(other, b[i])) {
      assert SameAnchor(a[i], b[i]);
      SameContent(h, a[i], log, b[i], other);
    }
  }

  // ----- what the periods cover -----

  /** Each period begins where the one before it ended, and the first has no beginning. */
  predicate Contiguous(anchors: seq<Anchor>)
  {
    |anchors| == 0
      || (Follows(LastEnd(anchors[..|anchors| - 1]), anchors[|anchors| - 1]) && Contiguous(anchors[..|anchors| - 1]))
  }

  predicate Follows(end: Option<int>, a: Anchor)
  {
    a.periodStart == end && (end.Some? ==> end.value <= a.periodEnd)
  }

  function LastEnd(anchors: seq<Anchor>): Option<int>
  {
    if |anchors| == 0 then None else Some(anchors[|anchors| - 1].periodEnd)
  }

  /** All the rows the anchors cover, period after period. */
  function Covered(log: Table, anchors: seq<Anchor>): seq<AuditRow>
  {
    if |anchors| == 0 then [] else Covered(log, anchors[..|anchors| - 1]) + Period(log, anchors[|anchors| - 1])
  }

  lemma {:induction false} NothingLater(log: Table, start: int, end: int)
    requires forall i :: 0 <= i < |log| ==> log[i].occurredAt <= start
    ensures RowsIn(log, Some(start), end) == []
  {
    if |log| > 0 { NothingLater(log[..|log| - 1], start, end); }
  }

  /** A period splits at any time within it. */
  lemma {:induction false} SplitPeriod(log: Table, middle: int, end: int)
    requires InOrder(log) && middle <= end
    ensures RowsIn(log, None, middle) + RowsIn(log, Some(middle), end) == RowsIn(log, None, end)
  {
    if |log| > 0 {
      var front, last := log[..|log| - 1], log[|log| - 1];
      SplitPeriod(front, middle, end);
      if last.occurredAt <= middle { NothingLater(front, middle, end); }
    }
  }

  /** Contiguous periods cover every row up to the newest anchor's end, each once and in order. */
  lemma {:induction false} PeriodsCover(log: Table, anchors: seq<Anchor>)
    requires InOrder(log) && Contiguous(anchors) && anchors != []
    ensures Covered(log, anchors) == RowsIn(log, None, anchors[|anchors| - 1].periodEnd)
  {
    var front, last := anchors[..|anchors| - 1], anchors[|anchors| - 1];
    if |anchors| == 1 {
      assert Covered(log, front) == [] && last.periodStart == None;
      assert Covered(log, anchors) == [] + Period(log, last);
    } else {
      PeriodsCover(log, front);
      SplitPeriod(log, front[|front| - 1].periodEnd, last.periodEnd);
    }
  }

  /** And that is the whole table exactly when nothing in it is later than the newest anchor's end. */
  lemma {:induction false} WholeExactly(log: Table, end: int)
    ensures |RowsIn(log, None, end)| <= |log|
    ensures RowsIn(log, None, end) == log <==> forall i :: 0 <= i < |log| ==> log[i].occurredAt <= end
  {
    if |log| > 0 {
      var front, last := log[..|log| - 1], log[|log| - 1];
      WholeExactly(front, end);
      assert log == front + [last];
      if RowsIn(log, None, end) == log {
        assert |RowsIn(front, None, end)| >= |front|;
        assert InPeriod(last, None, end);
        assert RowsIn(front, None, end) == log[..|front|];
      }
    }
  }

  lemma {:induction false} SameCovered(log: Table, a: seq<Anchor>, other: Table, b: seq<Anchor>)
    requires |a| == |b| && forall i :: 0 <= i < |a| ==> SameRows(Period(log, a[i]), Period(other, b[i]))
    ensures SameRows(Covered(log, a), Covered(other, b))
  {
    if |a| > 0 { SameCovered(log, a[..|a| - 1], other, b[..|b| - 1]); }
  }

  /** The newest `chainHash` of contiguous periods commits to the table itself, up to that anchor's end. */
  lemma TableCommits(h: Hash, a: seq<Anchor>, log: Table, b: seq<Anchor>, other: Table)
    requires LogVerified(h, a, log) && LogVerified(h, b, other) && LogTrusted(h, a, log, b, other)
    requires AnchorsFit(a) && AnchorsFit(b) && AllFit(log) && AllFit(other) && InOrder(log) && InOrder(other)
    requires Contiguous(a) && Contiguous(b)
    requires a != [] && b != [] && a[|a| - 1].chainHash == b[|b| - 1].chainHash
    ensures SameRows(RowsIn(log, None, a[|a| - 1].periodEnd), RowsIn(other, None, b[|b| - 1].periodEnd))
  {
    LogCommits(h, a, log, b, other);
    SameCovered(log, a, other, b);
    PeriodsCover(log, a);
    PeriodsCover(other, b);
  }

  // ----- the job that anchors -----

  function PrevHash(anchors: seq<Anchor>): ByteString
  {
    if |anchors| == 0 then GenesisHex() else anchors[|anchors| - 1].chainHash
  }

  /** The anchor of a period's rows, on top of a chain. */
  function AnchorOf(h: Hash, prev: ByteString, start: Option<int>, end: int, rows: seq<AuditRow>,
                    id: string): (a: Anchor)
    ensures a.chainHash == ChainHash(h, a)
  {
    var draft := Anchor(id, prev, start, end, |rows|, Hex(FoldRows(h, rows)), []);
    draft.(chainHash := ChainHash(h, draft))
  }

  /** `anchor_audit` up to a time: the next anchor, or none while there is nothing new. */
  function NextAnchor(h: Hash, anchors: seq<Anchor>, log: Table, end: int, id: string): Option<Anchor>
  {
    var start := LastEnd(anchors);
    if start.Some? && end <= start.value then None
    else Some(AnchorOf(h, PrevHash(anchors), start, end, RowsIn(log, start, end), id))
  }

  lemma LinksGrow(anchors: seq<Anchor>, a: Anchor)
    ensures LinksOf(anchors + [a]) == LinksOf(anchors) + [LinkOf(a)]
  {
  }

  lemma ChainGrows(h: Hash, anchors: seq<Anchor>, a: Anchor)
    requires WellLinked(h, anchors) && a.prevChainHash == PrevHash(anchors) && a.chainHash == ChainHash(h, a)
    ensures WellLinked(h, anchors + [a])
  {
    LinksGrow(anchors, a);
    LinkedSnoc(h, LinksOf(anchors), LinkOf(a));
  }

  lemma PeriodsGrow(anchors: seq<Anchor>, a: Anchor)
    requires Contiguous(anchors) && Follows(LastEnd(anchors), a)
    ensures Contiguous(anchors + [a]) && LastEnd(anchors + [a]) == Some(a.periodEnd)
  {
    assert (anchors + [a])[..|anchors + [a]| - 1] == anchors;
  }

  /** Every anchor the job adds keeps the chain unbroken, its periods contiguous and its contents verified. */
  lemma AnchoringKeeps(h: Hash, anchors: seq<Anchor>, log: Table, end: int, id: string)
    requires LogVerified(h, anchors, log) && Contiguous(anchors) && NextAnchor(h, anchors, log, end, id).Some?
    ensures var more := anchors + [NextAnchor(h, anchors, log, end, id).value];
            LogVerified(h, more, log) && Contiguous(more) && LastEnd(more) == Some(end)
  {
    var next := NextAnchor(h, anchors, log, end, id).value;
    ChainGrows(h, anchors, next);
    PeriodsGrow(anchors, next);
    ContentGrows(h, anchors, next, log);
  }

  lemma ContentGrows(h: Hash, anchors: seq<Anchor>, a: Anchor, log: Table)
    requires ContentVerified(h, a, log) && forall i :: 0 <= i < |anchors| ==> ContentVerified(h, anchors[i], log)
    ensures forall i :: 0 <= i < |anchors + [a]| ==> ContentVerified(h, (anchors + [a])[i], log)
  {
    forall i | 0 <= i < |anchors + [a]| ensures ContentVerified(h, (anchors + [a])[i], log) {
      if i < |anchors| { assert ContentVerified(h, anchors[i], log); }
    }
  }

  lemma LinkedSnoc(h: Hash, links: seq<Link>, link: Link)
    requires Linked(h, links)
    requires link.prev == (if links == [] then GenesisHex() else links[|links| - 1].hash)
    requires link.hash == LinkHash(h, link.prev, link.body)
    ensures Linked(h, links + [link])
  {
    forall i | 0 <= i < |links| + 1 ensures LinkOk(h, links + [link], i) {
      if i < |links| { assert LinkOk(h, links, i); }
    }
  }

  /** Rows that arrive after an anchor's end leave it verified: the lag the job keeps is what allows it. */
  lemma {:induction false} LaterRowsDoNotMatter(log: Table, more: Table, start: Option<int>, end: int)
    requires forall i :: 0 <= i < |more| ==> more[i].occurredAt > end
    ensures RowsIn(log + more, start, end) == RowsIn(log, start, end)
  {
    if |more| == 0 {
      assert log + more == log;
    } else {
      assert (log + more)[..|log + more| - 1] == log + more[..|more| - 1];
      LaterRowsDoNotMatter(log, more[..|more| - 1], start, end);
    }
  }

  // ----- every history of the table and the job -----

  datatype Audit = Audit(log: Table, anchors: seq<Anchor>)

  datatype Step =
    | Wrote(row: AuditRow)
    | Ran(end: int, id: string)

  function StepOn(h: Hash, s: Audit, step: Step): Audit
  {
    match step
    case Wrote(row) => s.(log := s.log + [row])
    case Ran(end, id) =>
      match NextAnchor(h, s.anchors, s.log, end, id)
      case None => s
      case Some(anchor) => s.(anchors := s.anchors + [anchor])
  }

  function After(h: Hash, steps: seq<Step>): Audit
  {
    if |steps| == 0 then Audit([], []) else StepOn(h, After(h, steps[..|steps| - 1]), steps[|steps| - 1])
  }

  /** What the job's lag is for: a row is in the table before its time is anchored, and rows come in order. */
  predicate InTime(s: Audit, step: Step)
  {
    step.Wrote? ==>
      && (|s.anchors| > 0 ==> step.row.occurredAt > s.anchors[|s.anchors| - 1].periodEnd)
      && (|s.log| > 0 ==> step.row.occurredAt >= s.log[|s.log| - 1].occurredAt)
  }

  predicate AllInTime(h: Hash, steps: seq<Step>)
  {
    forall n :: 0 <= n < |steps| ==> InTime(After(h, steps[..n]), steps[n])
  }

  function Counted(anchors: seq<Anchor>): int
  {
    if |anchors| == 0 then 0 else Counted(anchors[..|anchors| - 1]) + anchors[|anchors| - 1].rowCount
  }

  ghost predicate Counts(anchors: seq<Anchor>, log: Table)
  {
    forall i :: 0 <= i < |anchors| ==> anchors[i].rowCount == |Period(log, anchors[i])|
  }

  /** An anchor is due exactly when there is time after the last one's end to anchor; it begins there, ends where the
      job says, and counts its rows. */
  lemma AnchorIsDueExactly(h: Hash, anchors: seq<Anchor>, log: Table, end: int, id: string)
    ensures NextAnchor(h, anchors, log, end, id).None? <==>
            |anchors| > 0 && end <= anchors[|anchors| - 1].periodEnd
    ensures NextAnchor(h, anchors, log, end, id).Some? ==>
              var a := NextAnchor(h, anchors, log, end, id).value;
              && a.periodEnd == end && a.rowCount == |Period(log, a)| && ContentVerified(h, a, log)
              && a.periodStart == (if |anchors| == 0 then None else Some(anchors[|anchors| - 1].periodEnd))
              && a.prevChainHash == (if |anchors| == 0 then GenesisHex() else anchors[|anchors| - 1].chainHash)
  {
  }

  lemma {:induction false} EndsAscend(anchors: seq<Anchor>, i: nat)
    requires Contiguous(anchors) && i < |anchors|
    ensures anchors[i].periodEnd <= anchors[|anchors| - 1].periodEnd
  {
    if i < |anchors| - 1 { EndsAscend(anchors[..|anchors| - 1], i); }
  }

  /** The chain and every period verify, the periods are contiguous, the rows in order and counted. */
  ghost predicate Good(h: Hash, s: Audit)
  {
    LogVerified(h, s.anchors, s.log) && Contiguous(s.anchors) && Counts(s.anchors, s.log) && InOrder(s.log)
  }

  lemma PeriodStays(s: Audit, row: AuditRow, i: nat)
    requires Contiguous(s.anchors) && i < |s.anchors| && row.occurredAt > s.anchors[|s.anchors| - 1].periodEnd
    ensures Period(s.log + [row], s.anchors[i]) == Period(s.log, s.anchors[i])
  {
    EndsAscend(s.anchors, i);
    LaterRowsDoNotMatter(s.log, [row], s.anchors[i].periodStart, s.anchors[i].periodEnd);
  }

  lemma OrderGrows(log: Table, row: AuditRow)
    requires InOrder(log) && (|log| > 0 ==> row.occurredAt >= log[|log| - 1].occurredAt)
    ensures InOrder(log + [row])
  {
  }

  lemma WritingKeeps(h: Hash, s: Audit, row: AuditRow)
    requires Good(h, s) && InTime(s, Wrote(row))
    ensures Good(h, Audit(s.log + [row], s.anchors))
  {
    var log := s.log + [row];
    forall i | 0 <= i < |s.anchors|
      ensures ContentVerified(h, s.anchors[i], log) && s.anchors[i].rowCount == |Period(log, s.anchors[i])|
    {
      assert ContentVerified(h, s.anchors[i], s.log);
      PeriodStays(s, row, i);
    }
    OrderGrows(s.log, row);
  }

  /** The later of the two ends. */
  function Later(before: Option<int>, end: int): Option<int>
  {
    if before.Some? && end <= before.value then before else Some(end)
  }

  lemma CountsGrow(anchors: seq<Anchor>, a: Anchor, log: Table)
    requires Counts(anchors, log) && a.rowCount == |Period(log, a)|
    ensures Counts(anchors + [a], log)
  {
  }

  lemma RunningKeeps(h: Hash, s: Audit, end: int, id: string)
    requires Good(h, s)
    ensures var t := StepOn(h, s, Ran(end, id));
            Good(h, t) && LastEnd(t.anchors) == Later(LastEnd(s.anchors), end)
  {
    AnchorIsDueExactly(h, s.anchors, s.log, end, id);
    var next := NextAnchor(h, s.anchors, s.log, end, id);
    if next.Some? {
      AnchoringKeeps(h, s.anchors, s.log, end, id);
      CountsGrow(s.anchors, next.value, s.log);
    }
  }

  lemma StepKeeps(h: Hash, s: Audit, step: Step)
    requires Good(h, s) && InTime(s, step)
    ensures Good(h, StepOn(h, s, step))
    ensures LastEnd(StepOn(h, s, step).anchors) ==
            if step.Ran? then Later(LastEnd(s.anchors), step.end) else LastEnd(s.anchors)
  {
    match step
    case Wrote(row) => WritingKeeps(h, s, row);
    case Ran(end, id) => RunningKeeps(h, s, end, id);
  }

  /** The latest end the job was run for. */
  function LatestEnd(steps: seq<Step>): Option<int>
  {
    if |steps| == 0 then None
    else
      var before, step := LatestEnd(steps[..|steps| - 1]), steps[|steps| - 1];
      if step.Ran? then Later(before, step.end) else before
  }

  lemma FrontInTime(h: Hash, steps: seq<Step>)
    requires AllInTime(h, steps) && |steps| > 0
    ensures AllInTime(h, steps[..|steps| - 1]) && InTime(After(h, steps[..|steps| - 1]), steps[|steps| - 1])
  {
    var front := steps[..|steps| - 1];
    assert forall n :: 0 <= n < |front| ==> front[..n] == steps[..n] && front[n] == steps[n];
  }

  /** The whole life of the log: whatever is written and whenever the job runs, as long as rows are in before
      their time is anchored, the chain and every period verify, the periods reach the latest end the job was run
      for, and each anchor counts its rows. */
  lemma {:induction false} HistoryVerifies(h: Hash, steps: seq<Step>)
    requires AllInTime(h, steps)
    ensures Good(h, After(h, steps)) && LastEnd(After(h, steps).anchors) == LatestEnd(steps)
  {
    if |steps| > 0 {
      FrontInTime(h, steps);
      HistoryVerifies(h, steps[..|steps| - 1]);
      StepKeeps(h, After(h, steps[..|steps| - 1]), steps[|steps| - 1]);
    }
  }

  lemma {:induction false} CountsAddUp(log: Table, anchors: seq<Anchor>)
    requires Counts(anchors, log)
    ensures Counted(anchors) == |Covered(log, anchors)|
  {
    if |anchors| > 0 {
      assert forall i :: 0 <= i < |anchors| - 1 ==> anchors[..|anchors| - 1][i] == anchors[i];
      CountsAddUp(log, anchors[..|anchors| - 1]);
    }
  }

  /** And the counts add up to the rows there are, up to that end: none is left out and none counted twice. */
  lemma EveryRowIsCountedOnce(h: Hash, steps: seq<Step>)
    requires AllInTime(h, steps) && LatestEnd(steps).Some?
    ensures var s := After(h, steps); Counted(s.anchors) == |RowsIn(s.log, None, LatestEnd(steps).value)|
  {
    HistoryVerifies(h, steps);
    var s := After(h, steps);
    CountsAddUp(s.log, s.anchors);
    PeriodsCover(s.log, s.anchors);
  }
}
