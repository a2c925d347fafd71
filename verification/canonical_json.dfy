/**
 `canonical_json`: a JSON value printed with every object's keys sorted, recursively.

 `Meaning` is the independent reference: the value a document denotes, with an object as a map from
 key to value. `CanonicalIsExact` says the printed text determines that meaning and nothing else.
 Strings are UTF-8 bytes; a number is its printed text.
 */
module CanonicalJson {
  import opened Bytes

  datatype Json =
    | Null
    | Bool(b: bool)
    | Number(text: ByteString)
    | Text(s: ByteString)
    | Array(items: seq<Json>)
    | Object(fields: seq<Field>)

  /** One entry of an object, in the order the map iterates. */
  datatype Field = Field(key: ByteString, value: Json)

  datatype Meaning =
    | MNull
    | MBool(b: bool)
    | MNumber(text: ByteString)
    | MText(s: ByteString)
    | MArray(items: seq<Meaning>)
    | MObject(fields: map<ByteString, Meaning>)

  predicate NumberByte(b: Byte)
  {
    '0' as int <= b <= '9' as int || b in [43, 45, 46, 69, 101]  // + - . E e
  }

  /** What a `serde_json` value is: printable numbers, and no key twice in one object. */
  predicate WellFormed(v: Json)
    decreases v, 0
  {
    match v
    case Number(t) => t != [] && forall i :: 0 <= i < |t| ==> NumberByte(t[i])
    case Array(items) => AllWellFormed(items)
    case Object(fields) => FieldsWellFormed(fields) && DistinctKeys(fields)
    case _ => true
  }

  predicate AllWellFormed(items: seq<Json>)
    decreases items, 1
  {
    items == [] || (WellFormed(items[0]) && AllWellFormed(items[1..]))
  }

  predicate FieldsWellFormed(fields: seq<Field>)
    decreases fields, 1
  {
    fields == [] || (WellFormed(fields[0].value) && FieldsWellFormed(fields[1..]))
  }

  predicate DistinctKeys(fields: seq<Field>)
  {
    forall i, j :: 0 <= i < j < |fields| ==> fields[i].key != fields[j].key
  }

  // ----- the printer -----

  /** The escapes of `serde_json`: quote, backslash and the control bytes; the rest is verbatim. */
  function Escape(b: Byte): (r: ByteString)
    ensures |r| > 0
  {
    if b == 34 then [92, 34]             // \"
    else if b == 92 then [92, 92]        // \\
    else if b == 8 then [92, 98]         // \b
    else if b == 9 then [92, 116]        // \t
    else if b == 10 then [92, 110]       // \n
    else if b == 12 then [92, 102]       // \f
    else if b == 13 then [92, 114]       // \r
    else if b < 32 then [92, 117, 48, 48, HexDigit(b / 16), HexDigit(b % 16)]  // \u00XX
    else [b]
  }

  /** What is escaped, and how: the quote and the backslash by a backslash, five control bytes by a letter, the
      others by four hexadecimal digits; nothing else. */
  lemma EscapesAreExact(b: Byte)
    ensures Escape(b) == [b] <==> b >= 32 && b != 34 && b != 92
    ensures (b == 34 || b == 92) ==> Escape(b) == [92, b]
    ensures Escape(8) == [92, 98] && Escape(9) == [92, 116] && Escape(10) == [92, 110]
    ensures Escape(12) == [92, 102] && Escape(13) == [92, 114]
    ensures b < 32 && b !in {8, 9, 10, 12, 13} ==>
              |Escape(b)| == 6 && Escape(b)[..4] == [92, 117, 48, 48]
              && Escape(b)[4..] == [HexDigit(b / 16), HexDigit(b % 16)]
  {
  }

  function EscapeAll(s: ByteString): ByteString
  {
    if s == [] then [] else Escape(s[0]) + EscapeAll(s[1..])
  }

  const QUOTE: Byte := 34
  const COMMA: Byte := 44
  const COLON: Byte := 58
  const OPEN_ARRAY: Byte := 91
  const CLOSE_ARRAY: Byte := 93
  const OPEN_OBJECT: Byte := 123
  const CLOSE_OBJECT: Byte := 125

  /** The body of a string and its closing quote. */
  function StringTail(s: ByteString): ByteString
  {
    EscapeAll(s) + [QUOTE]
  }

  function Print(v: Json): ByteString
    decreases v, 0
  {
    match v
    case Null => [110, 117, 108, 108]
    case Bool(b) => if b then [116, 114, 117, 101] else [102, 97, 108, 115, 101]
    case Number(t) => t
    case Text(s) => [QUOTE] + StringTail(s)
    case Array(items) => [OPEN_ARRAY] + PrintItems(items, true)
    case Object(fields) => [OPEN_OBJECT] + PrintFields(fields, true)
  }

  function Separator(first: bool): ByteString
  {
    if first then [] else [COMMA]
  }

  /** The items from here on and the closing bracket; a comma precedes all but the first. */
  function PrintItems(items: seq<Json>, first: bool): ByteString
    decreases items, 1
  {
    if items == [] then [CLOSE_ARRAY]
    else Separator(first) + (Print(items[0]) + PrintItems(items[1..], false))
  }

  function PrintFields(fields: seq<Field>, first: bool): ByteString
    decreases fields, 1
  {
    if fields == [] then [CLOSE_OBJECT]
    else Separator(first) + ([QUOTE] + (StringTail(fields[0].key) + ([COLON]
         + (Print(fields[0].value) + PrintFields(fields[1..], false)))))
  }

  // ----- the rewrite -----

  /** Insertion by key: the `keys.sort()` of the source, which never meets a key twice. */
  function InsertByKey(f: Field, fields: seq<Field>): (r: seq<Field>)
    ensures |r| == |fields| + 1
  {
    if fields == [] || Less(f.key, fields[0].key) then [f] + fields
    else [fields[0]] + InsertByKey(f, fields[1..])
  }

  function SortKeys(v: Json): Json
    decreases v, 0
  {
    match v
    case Array(items) => Array(SortItems(items))
    case Object(fields) => Object(SortFields(fields))
    case _ => v
  }

  function SortItems(items: seq<Json>): seq<Json>
    decreases items, 1
  {
    if items == [] then [] else [SortKeys(items[0])] + SortItems(items[1..])
  }

  function SortFields(fields: seq<Field>): seq<Field>
    decreases fields, 1
  {
    if fields == [] then []
    else InsertByKey(Field(fields[0].key, SortKeys(fields[0].value)), SortFields(fields[1..]))
  }

  function Canonical(v: Json): ByteString
  {
    Print(SortKeys(v))
  }

  // ----- the reference -----

  function Mean(v: Json): Meaning
    decreases v, 0
  {
    match v
    case Null => MNull
    case Bool(b) => MBool(b)
    case Number(t) => MNumber(t)
    case Text(s) => MText(s)
    case Array(items) => MArray(MeanItems(items))
    case Object(fields) => MObject(MeanFields(fields))
  }

  function MeanItems(items: seq<Json>): (r: seq<Meaning>)
    ensures |r| == |items|
    decreases items, 1
  {
    if items == [] then [] else [Mean(items[0])] + MeanItems(items[1..])
  }

  function MeanFields(fields: seq<Field>): map<ByteString, Meaning>
    decreases fields, 1
  {
    if fields == [] then map[] else MeanFields(fields[1..])[fields[0].key := Mean(fields[0].value)]
  }

  function Keys(fields: seq<Field>): set<ByteString>
  {
    set i | 0 <= i < |fields| :: fields[i].key
  }

  // ----- printing loses nothing -----

  lemma EscapeIsPrefixFree(a: Byte, b: Byte, r: ByteString, s: ByteString)
    requires Escape(a) + r == Escape(b) + s
    ensures a == b && r == s
  {
    var x, y := Escape(a) + r, Escape(b) + s;
    assert x[0] == Escape(a)[0] && y[0] == Escape(b)[0];
    if |Escape(a)| > 1 && |Escape(b)| > 1 {
      assert x[1] == Escape(a)[1] && y[1] == Escape(b)[1];
      if |Escape(a)| == 6 && |Escape(b)| == 6 {
        assert x[4] == Escape(a)[4] && y[4] == Escape(b)[4];
        assert x[5] == Escape(a)[5] && y[5] == Escape(b)[5];
      }
    }
    assert a == b;
    assert x[|Escape(a)|..] == r && y[|Escape(b)|..] == s;
  }

  /** Only the end of the string shows a bare quote. */
  lemma QuoteEndsString(s: ByteString)
    ensures |StringTail(s)| > 0
    ensures StringTail(s)[0] == QUOTE <==> s == []
  {
  }

  lemma StringShape(a: ByteString, r: ByteString)
    requires a != []
    ensures StringTail(a) + r == Escape(a[0]) + (StringTail(a[1..]) + r)
  {
  }

  lemma {:induction false} StringIsPrefixFree(a: ByteString, b: ByteString, r: ByteString, s: ByteString)
    requires StringTail(a) + r == StringTail(b) + s
    ensures a == b && r == s
  {
    QuoteEndsString(a);
    QuoteEndsString(b);
    assert (StringTail(a) + r)[0] == StringTail(a)[0] && (StringTail(b) + s)[0] == StringTail(b)[0];
    if a == [] || b == [] {
      assert a == b;
      assert (StringTail(a) + r)[1..] == r && (StringTail(b) + s)[1..] == s;
    } else {
      StringShape(a, r);
      StringShape(b, s);
      EscapeIsPrefixFree(a[0], b[0], StringTail(a[1..]) + r, StringTail(b[1..]) + s);
      StringIsPrefixFree(a[1..], b[1..], r, s);
      assert a == [a[0]] + a[1..] && b == [b[0]] + b[1..];
    }
  }

  /** What may follow a printed value: nothing, or a byte no number continues with. */
  predicate Stops(rest: ByteString)
  {
    rest == [] || !NumberByte(rest[0])
  }

  lemma NumberIsPrefixFree(a: ByteString, b: ByteString, r: ByteString, s: ByteString)
    requires WellFormed(Number(a)) && WellFormed(Number(b)) && Stops(r) && Stops(s)
    requires a + r == b + s
    ensures a == b && r == s
  {
    var x, y := a + r, b + s;
    assert (forall i :: 0 <= i < |a| ==> NumberByte(x[i])) && (|a| < |x| ==> !NumberByte(x[|a|]));
    assert (forall i :: 0 <= i < |b| ==> NumberByte(y[i])) && (|b| < |y| ==> !NumberByte(y[|b|]));
    assert |a| == |b|;
    assert x[..|a|] == a && y[..|b|] == b && x[|a|..] == r && y[|b|..] == s;
  }

  /** The first byte tells the kinds apart. */
  lemma FirstByte(v: Json)
    requires WellFormed(v)
    ensures |Print(v)| > 0
    ensures v.Null? <==> Print(v)[0] == 110
    ensures (v.Bool? && v.b) <==> Print(v)[0] == 116
    ensures (v.Bool? && !v.b) <==> Print(v)[0] == 102
    ensures v.Number? <==> NumberByte(Print(v)[0])
    ensures v.Text? <==> Print(v)[0] == QUOTE
    ensures v.Array? <==> Print(v)[0] == OPEN_ARRAY
    ensures v.Object? <==> Print(v)[0] == OPEN_OBJECT
  {
  }

  lemma ItemsStart(items: seq<Json>, first: bool)
    requires AllWellFormed(items)
    ensures |PrintItems(items, first)| > 0
    ensures items == [] <==> PrintItems(items, first)[0] == CLOSE_ARRAY
    ensures !first ==> Stops(PrintItems(items, first))
  {
  }

  lemma FieldsStart(fields: seq<Field>, first: bool)
    ensures |PrintFields(fields, first)| > 0
    ensures fields == [] <==> PrintFields(fields, first)[0] == CLOSE_OBJECT
    ensures !first ==> Stops(PrintFields(fields, first))
  {
  }

  lemma ItemsShape(items: seq<Json>, first: bool, r: ByteString)
    requires items != []
    ensures PrintItems(items, first) + r ==
            Separator(first) + (Print(items[0]) + (PrintItems(items[1..], false) + r))
  {
  }

  /** What a field prints after its key. */
  function AfterKey(fields: seq<Field>, r: ByteString): ByteString
    requires fields != []
  {
    [COLON] + (Print(fields[0].value) + (PrintFields(fields[1..], false) + r))
  }

  lemma FieldsShape(fields: seq<Field>, first: bool, r: ByteString)
    requires fields != []
    ensures PrintFields(fields, first) + r ==
            Separator(first) + ([QUOTE] + (StringTail(fields[0].key) + AfterKey(fields, r)))
  {
  }

  /** A printed value ends where it must: two printed texts that agree up to what follows them print
      the same value. */
  lemma {:induction false} PrintIsPrefixFree(v: Json, w: Json, r: ByteString, s: ByteString)
    requires WellFormed(v) && WellFormed(w) && Stops(r) && Stops(s)
    requires Print(v) + r == Print(w) + s
    ensures v == w && r == s
    decreases v, 0
  {
    FirstByte(v);
    FirstByte(w);
    assert Print(v)[0] == (Print(v) + r)[0] == Print(w)[0];
    match v
    case Number(t) => NumberIsPrefixFree(t, w.text, r, s);
    case Text(t) =>
      Regroup([QUOTE], StringTail(t), r);
      Regroup([QUOTE], StringTail(w.s), s);
      Cancel([QUOTE], StringTail(t) + r, StringTail(w.s) + s);
      StringIsPrefixFree(t, w.s, r, s);
    case Array(items) =>
      Regroup([OPEN_ARRAY], PrintItems(items, true), r);
      Regroup([OPEN_ARRAY], PrintItems(w.items, true), s);
      Cancel([OPEN_ARRAY], PrintItems(items, true) + r, PrintItems(w.items, true) + s);
      ItemsArePrefixFree(items, w.items, true, r, s);
    case Object(fields) =>
      Regroup([OPEN_OBJECT], PrintFields(fields, true), r);
      Regroup([OPEN_OBJECT], PrintFields(w.fields, true), s);
      Cancel([OPEN_OBJECT], PrintFields(fields, true) + r, PrintFields(w.fields, true) + s);
      FieldsArePrefixFree(fields, w.fields, true, r, s);
    case _ => Cancel(Print(v), r, s);
  }

  lemma {:induction false} ItemsArePrefixFree(v: seq<Json>, w: seq<Json>, first: bool, r: ByteString, s: ByteString)
    requires AllWellFormed(v) && AllWellFormed(w)
    requires PrintItems(v, first) + r == PrintItems(w, first) + s
    ensures v == w && r == s
    decreases v, 1
  {
    ItemsStart(v, first);
    ItemsStart(w, first);
    assert PrintItems(v, first)[0] == (PrintItems(v, first) + r)[0] == PrintItems(w, first)[0];
    if v == [] {
      Cancel([CLOSE_ARRAY], r, s);
    } else {
      ItemsShape(v, first, r);
      ItemsShape(w, first, s);
      var vr, wr := PrintItems(v[1..], false) + r, PrintItems(w[1..], false) + s;
      Cancel(Separator(first), Print(v[0]) + vr, Print(w[0]) + wr);
      ItemsStart(v[1..], false);
      ItemsStart(w[1..], false);
      PrintIsPrefixFree(v[0], w[0], vr, wr);
      ItemsArePrefixFree(v[1..], w[1..], false, r, s);
      assert v == [v[0]] + v[1..] && w == [w[0]] + w[1..];
    }
  }

  /** Two objects that go on with a field go on with the same key. */
  lemma FirstKeysAgree(v: seq<Field>, w: seq<Field>, first: bool, r: ByteString, s: ByteString)
    requires FieldsWellFormed(v) && FieldsWellFormed(w) && v != [] && w != []
    requires PrintFields(v, first) + r == PrintFields(w, first) + s
    ensures v[0].key == w[0].key && AfterKey(v, r) == AfterKey(w, s)
  {
    FieldsShape(v, first, r);
    FieldsShape(w, first, s);
    var vk, wk := StringTail(v[0].key) + AfterKey(v, r), StringTail(w[0].key) + AfterKey(w, s);
    Cancel(Separator(first), [QUOTE] + vk, [QUOTE] + wk);
    Cancel([QUOTE], vk, wk);
    StringIsPrefixFree(v[0].key, w[0].key, AfterKey(v, r), AfterKey(w, s));
  }

  lemma {:induction false} FieldsArePrefixFree(v: seq<Field>, w: seq<Field>, first: bool, r: ByteString, s: ByteString)
    requires FieldsWellFormed(v) && FieldsWellFormed(w)
    requires PrintFields(v, first) + r == PrintFields(w, first) + s
    ensures v == w && r == s
    decreases v, 1
  {
    FieldsStart(v, first);
    FieldsStart(w, first);
    assert PrintFields(v, first)[0] == (PrintFields(v, first) + r)[0] == PrintFields(w, first)[0];
    if v == [] {
      Cancel([CLOSE_OBJECT], r, s);
    } else {
      FirstKeysAgree(v, w, first, r, s);
      var vr, wr := PrintFields(v[1..], false) + r, PrintFields(w[1..], false) + s;
      Cancel([COLON], Print(v[0].value) + vr, Print(w[0].value) + wr);
      FieldsStart(v[1..], false);
      FieldsStart(w[1..], false);
      PrintIsPrefixFree(v[0].value, w[0].value, vr, wr);
      FieldsArePrefixFree(v[1..], w[1..], false, r, s);
      assert v == [v[0]] + v[1..] && w == [w[0]] + w[1..];
    }
  }

  // ----- sorting changes the order of keys and nothing else -----

  predicate KeysAscend(fields: seq<Field>)
  {
    forall i, j :: 0 <= i < j < |fields| ==> Less(fields[i].key, fields[j].key)
  }

  /** The normal form: keys ascend in every object. */
  predicate Normal(v: Json)
    decreases v, 0
  {
    match v
    case Array(items) => ItemsNormal(items)
    case Object(fields) => FieldsNormal(fields) && KeysAscend(fields)
    case _ => true
  }

  predicate ItemsNormal(items: seq<Json>)
    decreases items, 1
  {
    items == [] || (Normal(items[0]) && ItemsNormal(items[1..]))
  }

  predicate FieldsNormal(fields: seq<Field>)
    decreases fields, 1
  {
    fields == [] || (Normal(fields[0].value) && FieldsNormal(fields[1..]))
  }

  lemma {:induction false} MeaningOfFields(fields: seq<Field>)
    requires DistinctKeys(fields)
    ensures MeanFields(fields).Keys == Keys(fields)
    ensures forall i :: 0 <= i < |fields| ==> MeanFields(fields)[fields[i].key] == Mean(fields[i].value)
  {
    if fields != [] {
      MeaningOfFields(fields[1..]);
      assert Keys(fields) == {fields[0].key} + Keys(fields[1..]);
      forall i | 0 <= i < |fields|
        ensures MeanFields(fields)[fields[i].key] == Mean(fields[i].value)
      {
        if i > 0 { assert fields[i] == fields[1..][i - 1]; }
      }
    }
  }

  /** Inserting one field into an ascending list: still ascending, one key more, the same meaning as
      setting that key, and as well formed and normal as its parts. */
  lemma {:induction false} InsertKeeps(f: Field, fields: seq<Field>)
    requires KeysAscend(fields) && FieldsWellFormed(fields) && FieldsNormal(fields)
    requires f.key !in Keys(fields) && WellFormed(f.value) && Normal(f.value)
    ensures var r := InsertByKey(f, fields);
            && KeysAscend(r) && FieldsWellFormed(r) && FieldsNormal(r)
            && Keys(r) == Keys(fields) + {f.key}
            && MeanFields(r) == MeanFields(fields)[f.key := Mean(f.value)]
  {
    if fields == [] || Less(f.key, fields[0].key) {
      Prepend(f, fields);
    } else {
      var head, rest := fields[0], fields[1..];
      assert fields == [head] + rest;
      KeysOfCons(head, rest);
      InsertKeeps(f, rest);
      LessIsTotal(f.key, head.key);
      HeadIsBelow(fields);
      UpdatesCommute(MeanFields(rest), f.key, Mean(f.value), head.key, Mean(head.value));
      PrependLeast(head, InsertByKey(f, rest));
    }
  }

  lemma UpdatesCommute(m: map<ByteString, Meaning>, k: ByteString, x: Meaning, l: ByteString, y: Meaning)
    requires k != l
    ensures m[k := x][l := y] == m[l := y][k := x]
  {
  }

  lemma UpdateThenRemove(m: map<ByteString, Meaning>, k: ByteString, x: Meaning)
    requires k !in m
    ensures m[k := x] - {k} == m
  {
  }

  lemma HeadIsBelow(fields: seq<Field>)
    requires KeysAscend(fields) && fields != []
    ensures forall k :: k in Keys(fields[1..]) ==> Less(fields[0].key, k)
    ensures fields[0].key !in Keys(fields[1..])
    ensures KeysAscend(fields[1..])
  {
    forall k | k in Keys(fields[1..]) ensures Less(fields[0].key, k) {
      var i :| 0 <= i < |fields[1..]| && fields[1..][i].key == k;
      assert fields[i + 1].key == k;
    }
    LessIsTotal(fields[0].key, fields[0].key);
  }

  /** A field whose key is below every key of an ascending list goes in front of it. */
  lemma PrependLeast(f: Field, fields: seq<Field>)
    requires KeysAscend(fields) && FieldsWellFormed(fields) && FieldsNormal(fields)
    requires WellFormed(f.value) && Normal(f.value)
    requires forall k :: k in Keys(fields) ==> Less(f.key, k)
    ensures var r := [f] + fields;
            && KeysAscend(r) && FieldsWellFormed(r) && FieldsNormal(r)
            && Keys(r) == Keys(fields) + {f.key}
            && MeanFields(r) == MeanFields(fields)[f.key := Mean(f.value)]
  {
  }

  lemma Prepend(f: Field, fields: seq<Field>)
    requires KeysAscend(fields) && FieldsWellFormed(fields) && FieldsNormal(fields)
    requires WellFormed(f.value) && Normal(f.value)
    requires fields == [] || Less(f.key, fields[0].key)
    ensures var r := [f] + fields;
            && KeysAscend(r) && FieldsWellFormed(r) && FieldsNormal(r)
            && Keys(r) == Keys(fields) + {f.key}
            && MeanFields(r) == MeanFields(fields)[f.key := Mean(f.value)]
  {
    forall k | k in Keys(fields) ensures Less(f.key, k) {
      FirstIsLeast(fields, k);
      if k != fields[0].key { LessIsTransitive(f.key, fields[0].key, k); }
    }
    PrependLeast(f, fields);
  }

  lemma KeysOfCons(f: Field, fields: seq<Field>)
    ensures Keys([f] + fields) == {f.key} + Keys(fields)
  {
    var all := [f] + fields;
    forall k | k in Keys(fields) ensures k in Keys(all) {
      var i :| 0 <= i < |fields| && fields[i].key == k;
      assert all[i + 1].key == k;
    }
    assert all[0].key == f.key;
  }

  lemma {:induction false} SortKeysKeeps(v: Json)
    requires WellFormed(v)
    ensures WellFormed(SortKeys(v)) && Normal(SortKeys(v)) && Mean(SortKeys(v)) == Mean(v)
    decreases v, 0
  {
    match v
    case Array(items) => SortItemsKeeps(items);
    case Object(fields) =>
      SortFieldsKeeps(fields);
      AscendingIsDistinct(SortFields(fields));
    case _ =>
  }

  lemma {:induction false} SortItemsKeeps(items: seq<Json>)
    requires AllWellFormed(items)
    ensures AllWellFormed(SortItems(items)) && ItemsNormal(SortItems(items))
    ensures MeanItems(SortItems(items)) == MeanItems(items)
    decreases items, 1
  {
    if items != [] {
      SortKeysKeeps(items[0]);
      SortItemsKeeps(items[1..]);
      assert SortItems(items)[1..] == SortItems(items[1..]);
    }
  }

  lemma {:induction false} SortFieldsKeeps(fields: seq<Field>)
    requires FieldsWellFormed(fields) && DistinctKeys(fields)
    ensures var r := SortFields(fields);
            && FieldsWellFormed(r) && FieldsNormal(r) && KeysAscend(r)
            && Keys(r) == Keys(fields) && MeanFields(r) == MeanFields(fields)
    decreases fields, 1
  {
    if fields != [] {
      SortKeysKeeps(fields[0].value);
      SortFieldsKeeps(fields[1..]);
      KeysOfCons(fields[0], fields[1..]);
      assert fields == [fields[0]] + fields[1..];
      assert fields[0].key !in Keys(fields[1..]);
      InsertKeeps(Field(fields[0].key, SortKeys(fields[0].value)), SortFields(fields[1..]));
    }
  }

  lemma AscendingIsDistinct(fields: seq<Field>)
    requires KeysAscend(fields)
    ensures DistinctKeys(fields)
  {
    forall i, j | 0 <= i < j < |fields| ensures fields[i].key != fields[j].key {
      LessIsTotal(fields[i].key, fields[j].key);
    }
  }

  /** A meaning has one normal form. */
  lemma {:induction false} NormalIsUnique(v: Json, w: Json)
    requires Normal(v) && Normal(w) && Mean(v) == Mean(w)
    ensures v == w
    decreases v, 0
  {
    match v
    case Array(items) => NormalItemsAreUnique(items, w.items);
    case Object(fields) => NormalFieldsAreUnique(fields, w.fields);
    case _ =>
  }

  lemma {:induction false} NormalItemsAreUnique(v: seq<Json>, w: seq<Json>)
    requires ItemsNormal(v) && ItemsNormal(w) && MeanItems(v) == MeanItems(w)
    ensures v == w
    decreases v, 1
  {
    assert |MeanItems(v)| == |MeanItems(w)|;
    if v != [] {
      assert MeanItems(v)[1..] == MeanItems(v[1..]) && MeanItems(w)[1..] == MeanItems(w[1..]);
      assert MeanItems(v)[0] == Mean(v[0]) && MeanItems(w)[0] == Mean(w[0]);
      NormalIsUnique(v[0], w[0]);
      NormalItemsAreUnique(v[1..], w[1..]);
      assert v == [v[0]] + v[1..] && w == [w[0]] + w[1..];
    }
  }

  /** The first key of an ascending list is its least key. */
  lemma FirstIsLeast(fields: seq<Field>, k: ByteString)
    requires KeysAscend(fields) && k in Keys(fields)
    ensures k == fields[0].key || Less(fields[0].key, k)
  {
  }

  /** Two ascending lists of the same meaning start with the same key. */
  lemma SameFirstKey(v: seq<Field>, w: seq<Field>)
    requires KeysAscend(v) && KeysAscend(w) && MeanFields(v) == MeanFields(w)
    ensures v == [] <==> w == []
    ensures v != [] ==> v[0].key == w[0].key
  {
    AscendingIsDistinct(v);
    AscendingIsDistinct(w);
    MeaningOfFields(v);
    MeaningOfFields(w);
    assert Keys(v) == Keys(w);
    assert v != [] ==> v[0].key in Keys(v);
    assert w != [] ==> w[0].key in Keys(w);
    if v != [] {
      FirstIsLeast(w, v[0].key);
      FirstIsLeast(v, w[0].key);
      LessIsTotal(v[0].key, w[0].key);
    }
  }

  /** Taking the first field off an ascending list takes its key off the meaning. */
  lemma DropFirst(v: seq<Field>)
    requires KeysAscend(v) && v != []
    ensures MeanFields(v[1..]) == MeanFields(v) - {v[0].key}
    ensures v[0].key in MeanFields(v) && MeanFields(v)[v[0].key] == Mean(v[0].value)
  {
    HeadIsBelow(v);
    AscendingIsDistinct(v[1..]);
    MeaningOfFields(v[1..]);
    UpdateThenRemove(MeanFields(v[1..]), v[0].key, Mean(v[0].value));
  }

  lemma {:induction false} NormalFieldsAreUnique(v: seq<Field>, w: seq<Field>)
    requires FieldsNormal(v) && FieldsNormal(w) && KeysAscend(v) && KeysAscend(w)
    requires MeanFields(v) == MeanFields(w)
    ensures v == w
    decreases v, 1
  {
    SameFirstKey(v, w);
    if v != [] {
      DropFirst(v);
      DropFirst(w);
      NormalIsUnique(v[0].value, w[0].value);
      NormalFieldsAreUnique(v[1..], w[1..]);
      assert v == [v[0]] + v[1..] && w == [w[0]] + w[1..];
    }
  }

  /** The canonical text determines the meaning and depends on nothing else: two documents print the
      same exactly when they denote the same value, that is, when they differ at most in the order of
      object keys. */
  lemma CanonicalIsExact(v: Json, w: Json)
    requires WellFormed(v) && WellFormed(w)
    ensures Canonical(v) == Canonical(w) <==> Mean(v) == Mean(w)
  {
    SortKeysKeeps(v);
    SortKeysKeeps(w);
    if Canonical(v) == Canonical(w) {
      PrintIsPrefixFree(SortKeys(v), SortKeys(w), [], []);
    }
    if Mean(v) == Mean(w) {
      NormalIsUnique(SortKeys(v), SortKeys(w));
    }
  }
}
