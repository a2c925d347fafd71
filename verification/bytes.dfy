/** Optional values, shared by every module. */
module Options {
  datatype Option<+T> = None | Some(value: T)
}

/** Finite sets. */
module Sets {
  lemma SubsetIsSmaller<T>(a: set<T>, b: set<T>)
    requires a <= b
    ensures |a| <= |b|
  {
    if a != {} {
      var x :| x in a;
      SubsetIsSmaller(a - {x}, b - {x});
    }
  }

  lemma {:induction false} InjectionIsSmaller<T, U>(a: set<T>, b: set<U>, f: T -> U)
    requires forall x :: x in a ==> f(x) in b
    requires forall x, y :: x in a && y in a && f(x) == f(y) ==> x == y
    ensures |a| <= |b|
  {
    if a != {} {
      var x :| x in a;
      InjectionIsSmaller(a - {x}, b - {f(x)}, f);
    }
  }
}

/** White space and trimming, as the standard library of the source has them. */
module Text {
  /** `char::is_whitespace`. */
  predicate Space(c: char)
  {
    var n := c as int;
    9 <= n <= 13 || n == 32 || n == 0x85 || n == 0xA0 || n == 0x1680 || 0x2000 <= n <= 0x200A
    || n == 0x2028 || n == 0x2029 || n == 0x202F || n == 0x205F || n == 0x3000
  }

  predicate Blank(s: string)
  {
    forall i :: 0 <= i < |s| ==> Space(s[i])
  }

  function TrimStart(s: string): string
  {
    if |s| > 0 && Space(s[0]) then TrimStart(s[1..]) else s
  }

  function TrimEnd(s: string): string
  {
    if |s| > 0 && Space(s[|s| - 1]) then TrimEnd(s[..|s| - 1]) else s
  }

  function Trim(s: string): string { TrimEnd(TrimStart(s)) }

  lemma {:induction false} TrimStartDrops(before: string, s: string)
    requires Blank(before)
    ensures TrimStart(before + s) == TrimStart(s)
    decreases |before|
  {
    if |before| == 0 {
      assert before + s == s;
    } else {
      assert (before + s)[1..] == before[1..] + s;
      TrimStartDrops(before[1..], s);
    }
  }

  lemma {:induction false} TrimEndDrops(s: string, after: string)
    requires Blank(after)
    ensures TrimEnd(s + after) == TrimEnd(s)
    decreases |after|
  {
    if |after| == 0 {
      assert s + after == s;
    } else {
      assert (s + after)[..|s + after| - 1] == s + after[..|after| - 1];
      TrimEndDrops(s, after[..|after| - 1]);
    }
  }

  lemma {:induction false} TrimStartStops(s: string, after: string)
    ensures !Blank(s) ==> TrimStart(s + after) == TrimStart(s) + after
    ensures Blank(s) ==> TrimStart(s) == ""
    decreases |s|
  {
    if |s| > 0 && Space(s[0]) {
      assert (s + after)[1..] == s[1..] + after;
      assert Blank(s) <==> Blank(s[1..]);
      TrimStartStops(s[1..], after);
    }
  }

  /** Spaces at the edges do not matter. */
  lemma TrimIgnoresEdges(before: string, s: string, after: string)
    requires Blank(before) && Blank(after)
    ensures Trim(before + s + after) == Trim(s)
  {
    assert before + s + after == before + (s + after);
    TrimStartDrops(before, s + after);
    TrimStartStops(s, after);
    if Blank(s) {
      TrimStartDrops(s, after);
      TrimStartStops(after, "");
    } else {
      TrimEndDrops(TrimStart(s), after);
    }
  }
}

/** Byte strings, fixed-width words, length-prefixed frames and lowercase hex. */
module Bytes {
  type Byte = b: int | 0 <= b < 256
  type ByteString = seq<Byte>

  const TWO_64 := 0x1_0000_0000_0000_0000
  const TWO_63 := 0x8000_0000_0000_0000

  function Pow256(width: nat): (p: nat)
    ensures p >= 1
  {
    if width == 0 then 1 else 256 * Pow256(width - 1)
  }

  /** `n` in `width` bytes, most significant first. */
  function BigEndian(n: nat, width: nat): (r: ByteString)
    ensures |r| == width
  {
    if width == 0 then [] else BigEndian(n / 256, width - 1) + [n % 256]
  }

  lemma {:induction false} BigEndianInjective(a: nat, b: nat, width: nat)
    requires a < Pow256(width) && b < Pow256(width)
    requires BigEndian(a, width) == BigEndian(b, width)
    ensures a == b
  {
    if width > 0 {
      var x, y := BigEndian(a, width), BigEndian(b, width);
      assert x[width - 1] == a % 256 && y[width - 1] == b % 256;
      assert x[..width - 1] == BigEndian(a / 256, width - 1);
      assert y[..width - 1] == BigEndian(b / 256, width - 1);
      BigEndianInjective(a / 256, b / 256, width - 1);
    }
  }

  /** The eight bytes `to_be_bytes` gives for a 64-bit integer, signed (two's complement) or not. */
  function Word(n: int): (r: ByteString)
    ensures |r| == 8
  {
    BigEndian(n % TWO_64, 8)
  }

  predicate InI64(n: int) { -TWO_63 <= n < TWO_63 }

  predicate InU64(n: int) { 0 <= n < TWO_64 }

  lemma EightBytes()
    ensures Pow256(8) == TWO_64
  {
  }

  lemma SameResidue(a: int, b: int)
    requires (InI64(a) && InI64(b)) || (InU64(a) && InU64(b))
    requires a % TWO_64 == b % TWO_64
    ensures a == b
  {
  }

  lemma WordInjective(a: int, b: int)
    requires (InI64(a) && InI64(b)) || (InU64(a) && InU64(b))
    requires Word(a) == Word(b)
    ensures a == b
  {
    EightBytes();
    BigEndianInjective(a % TWO_64, b % TWO_64, 8);
    SameResidue(a, b);
  }

  /** A length prefix, then the bytes. */
  function Framed(bytes: ByteString): ByteString
  {
    Word(|bytes|) + bytes
  }

  lemma SevenZeros()
    ensures BigEndian(0, 7) == [0, 0, 0, 0, 0, 0, 0]
  {
    assert BigEndian(0, 2) == BigEndian(0, 1) + [0] == [0, 0];
    assert BigEndian(0, 4) == BigEndian(0, 3) + [0] == [0, 0, 0, 0];
    assert BigEndian(0, 6) == BigEndian(0, 5) + [0] == [0, 0, 0, 0, 0, 0];
  }

  /** Most significant byte first. */
  lemma SmallWords(n: Byte)
    ensures Word(n) == [0, 0, 0, 0, 0, 0, 0, n]
  {
    SevenZeros();
    assert n % TWO_64 == n && n / 256 == 0;
  }

  lemma SmallFrame(bytes: ByteString)
    requires |bytes| < 256
    ensures Framed(bytes) == [0, 0, 0, 0, 0, 0, 0, |bytes|] + bytes
  {
    SmallWords(|bytes|);
  }

  /** A frame says where it ends: what follows cannot shift its boundary. */
  lemma FramedIsPrefixFree(a: ByteString, b: ByteString, r: ByteString, s: ByteString)
    requires InU64(|a|) && InU64(|b|)
    requires Framed(a) + r == Framed(b) + s
    ensures a == b && r == s
  {
    var x, y := Framed(a) + r, Framed(b) + s;
    assert x[..8] == Word(|a|) && y[..8] == Word(|b|);
    WordInjective(|a|, |b|);
    var n := 8 + |a|;
    assert x[8..n] == a && y[8..n] == b;
    assert x[n..] == r && y[n..] == s;
  }

  lemma Cancel(p: ByteString, a: ByteString, b: ByteString)
    requires p + a == p + b
    ensures a == b
  {
    assert (p + a)[|p|..] == a && (p + b)[|p|..] == b;
  }

  lemma SplitAt(a: ByteString, b: ByteString, r: ByteString, s: ByteString)
    requires |a| == |b| && a + r == b + s
    ensures a == b && r == s
  {
    assert (a + r)[..|a|] == a && (b + s)[..|b|] == b;
    Cancel(a, r, s);
  }

  lemma Regroup(a: ByteString, b: ByteString, c: ByteString)
    ensures (a + b) + c == a + (b + c)
  {
  }

  function HexDigit(n: int): Byte
    requires 0 <= n < 16
  {
    if n < 10 then '0' as int + n else 'a' as int + n - 10
  }

  function Hex(bytes: ByteString): (r: ByteString)
    ensures |r| == 2 * |bytes|
  {
    if bytes == [] then []
    else [HexDigit(bytes[0] / 16), HexDigit(bytes[0] % 16)] + Hex(bytes[1..])
  }

  /** High digit first, in lower case: 0fa9. */
  lemma HexIsLowerCase()
    ensures Hex([0x0f, 0xa9]) == [48, 102, 97, 57]
  {
    assert [0x0f, 0xa9][1..] == [0xa9] && [0xa9][1..] == [];
    assert [0x0f, 0xa9][..1] == [0x0f] && [0x0f][..0] == [];
  }

  lemma {:induction false} HexInjective(a: ByteString, b: ByteString)
    requires Hex(a) == Hex(b)
    ensures a == b
  {
    assert |a| == |b|;
    if a != [] {
      assert Hex(a)[0] == HexDigit(a[0] / 16) && Hex(a)[1] == HexDigit(a[0] % 16);
      assert Hex(b)[0] == HexDigit(b[0] / 16) && Hex(b)[1] == HexDigit(b[0] % 16);
      assert a[0] == b[0];
      assert Hex(a)[2..] == Hex(a[1..]) && Hex(b)[2..] == Hex(b[1..]);
      HexInjective(a[1..], b[1..]);
      assert a == [a[0]] + a[1..] && b == [b[0]] + b[1..];
    }
  }

  /** Byte-lexicographic order: how Rust compares two strings. */
  predicate Less(a: ByteString, b: ByteString)
  {
    b != [] && (a == [] || a[0] < b[0] || (a[0] == b[0] && Less(a[1..], b[1..])))
  }

  lemma {:induction false} LessIsTotal(a: ByteString, b: ByteString)
    ensures Less(a, b) || a == b || Less(b, a)
    ensures !(Less(a, b) && Less(b, a)) && !Less(a, a)
  {
    if a != [] { LessIsTotal(a[1..], a[1..]); }
    if a != [] && b != [] && a[0] == b[0] {
      LessIsTotal(a[1..], b[1..]);
      assert a == [a[0]] + a[1..] && b == [b[0]] + b[1..];
    }
  }

  lemma {:induction false} LessIsTransitive(a: ByteString, b: ByteString, c: ByteString)
    requires Less(a, b) && Less(b, c)
    ensures Less(a, c)
  {
    if a != [] && a[0] == b[0] && b[0] == c[0] { LessIsTransitive(a[1..], b[1..], c[1..]); }
  }
}
