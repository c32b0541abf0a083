// Utf8z: a read-only byte span holding UTF-8 text, zero-terminated when it
// was made from a string or from a pointer. The encoding is that of
// RFC 3629 section 3; Dafny's `char` is a Unicode scalar value.
module Utf8z {
  import opened Clr

  // ----- UTF-8 (RFC 3629, section 3) -----

  predicate IsContinuation(b: uint8) { 0x80 <= b < 0xC0 }

  /** The UTF-8 octets of one scalar value. */
  function EncodeChar(c: char): (bs: seq<uint8>)
    ensures 1 <= |bs| <= 4
    ensures (bs[0] == 0) <==> (c == '\0')
    ensures forall k :: 1 <= k < |bs| ==> IsContinuation(bs[k])
  {
    var n := c as int;
    if n < 0x80 then [n]
    else if n < 0x800 then
      assert 2 <= n / 64 < 32;
      [0xC0 + n / 64, 0x80 + n % 64]
    else if n < 0x1_0000 then
      assert n / 4096 < 16;
      [0xE0 + n / 4096, 0x80 + (n / 64) % 64, 0x80 + n % 64]
    else
      assert n / 0x4_0000 < 5;
      [0xF0 + n / 0x4_0000, 0x80 + (n / 4096) % 64, 0x80 + (n / 64) % 64, 0x80 + n % 64]
  }

  /** Encoding.UTF8.GetBytes. */
  function Encode(s: string): (bs: seq<uint8>)
  {
    if |s| == 0 then [] else EncodeChar(s[0]) + Encode(s[1..])
  }

  const ReplacementChar: char := '�'

  /**
   * Encoding.UTF8.GetString. Well-formed sequences decode to their scalar
   * values; an ill-formed stretch is replaced as the Unicode Standard's
   * "maximal subpart" practice says (section 3.9, U+FFFD substitution):
   * the longest start of a well-formed sequence found there becomes one
   * U+FFFD, and decoding resumes after it.
   */
  function Decode(bs: seq<uint8>): string
    decreases |bs|
  {
    if |bs| == 0 then []
    else
      var b0 := bs[0] as int;
      if b0 < 0x80 then
        [b0 as char] + Decode(bs[1..])
      else if 0xC2 <= b0 <= 0xDF && |bs| >= 2 && IsContinuation(bs[1]) then
        var n := (b0 - 0xC0) * 64 + (bs[1] as int - 0x80);
        [n as char] + Decode(bs[2..])
      else if 0xE0 <= b0 <= 0xEF && |bs| >= 3 && IsContinuation(bs[1]) && IsContinuation(bs[2])
        && Scalar3(b0, bs[1], bs[2]) then
        [Decode3(b0, bs[1], bs[2]) as char] + Decode(bs[3..])
      else if 0xF0 <= b0 <= 0xF4 && |bs| >= 4 && IsContinuation(bs[1]) && IsContinuation(bs[2]) && IsContinuation(bs[3])
        && 0x1_0000 <= Decode4(b0, bs[1], bs[2], bs[3]) < 0x11_0000 then
        [Decode4(b0, bs[1], bs[2], bs[3]) as char] + Decode(bs[4..])
      else
        [ReplacementChar] + Decode(bs[MaximalSubpart(bs)..])
  }

  /**
   * The second octet a lead octet accepts (table 3-7 of the Unicode
   * Standard): narrower after E0, ED, F0 and F4, so that overlong forms,
   * surrogates and values past U+10FFFF are never started.
   */
  predicate SecondInRange(b0: uint8, b1: uint8) {
    if b0 == 0xE0 then 0xA0 <= b1 <= 0xBF
    else if b0 == 0xED then 0x80 <= b1 <= 0x9F
    else if b0 == 0xF0 then 0x90 <= b1 <= 0xBF
    else if b0 == 0xF4 then 0x80 <= b1 <= 0x8F
    else IsContinuation(b1)
  }

  /**
   * The number of octets an ill-formed stretch at the start of `bs` covers:
   * the lead octet and the continuation octets that still begin a
   * well-formed sequence, at least one octet.
   */
  function MaximalSubpart(bs: seq<uint8>): (n: nat)
    requires |bs| > 0
    ensures 1 <= n <= |bs| && n <= 3
  {
    var b0 := bs[0];
    if 0xE0 <= b0 <= 0xF4 && |bs| >= 2 && SecondInRange(b0, bs[1]) then
      if 0xF0 <= b0 && |bs| >= 3 && IsContinuation(bs[2]) then 3 else 2
    else 1
  }

  /**
   * Examples of the replacement: E2 82 (the start of U+20AC) followed by
   * "A" is one U+FFFD and "A"; C0 80, an overlong form, is two U+FFFD; and
   * F0 90 80, three octets of a four-octet sequence, is one U+FFFD.
   */
  lemma MaximalSubpartExamples()
    ensures Decode([0xE2, 0x82, 0x41]) == [ReplacementChar, 'A']
    ensures Decode([0xC0, 0x80]) == [ReplacementChar, ReplacementChar]
    ensures Decode([0xF0, 0x90, 0x80]) == [ReplacementChar]
  {
    assert [0xE2 as uint8, 0x82, 0x41][2..] == [0x41];
    assert Decode([0x41]) == ['A'];
    assert [0xC0 as uint8, 0x80][1..] == [0x80];
    assert Decode([0x80]) == [ReplacementChar];
    assert [0xF0 as uint8, 0x90, 0x80][3..] == [];
  }

  function Decode3(b0: int, b1: uint8, b2: uint8): int {
    (b0 - 0xE0) * 4096 + (b1 as int - 0x80) * 64 + (b2 as int - 0x80)
  }

  /** A three-octet sequence is well formed when it is not overlong and not a surrogate. */
  predicate Scalar3(b0: int, b1: uint8, b2: uint8) {
    0x800 <= Decode3(b0, b1, b2) < 0xD800 || 0xE000 <= Decode3(b0, b1, b2) < 0x1_0000
  }

  function Decode4(b0: int, b1: uint8, b2: uint8, b3: uint8): int {
    (b0 - 0xF0) * 0x4_0000 + (b1 as int - 0x80) * 4096 + (b2 as int - 0x80) * 64 + (b3 as int - 0x80)
  }

  lemma DivMod64(n: nat)
    ensures n == (n / 64) * 64 + n % 64
    ensures n / 4096 == (n / 64) / 64 && n / 0x4_0000 == (n / 4096) / 64
  {
  }

  /** Decoding the encoding of one scalar value gives that value back and resumes after it. */
  lemma DecodeEncodeChar(c: char, rest: seq<uint8>)
    ensures Decode(EncodeChar(c) + rest) == [c] + Decode(rest)
  {
    var n := c as int;
    var bs := EncodeChar(c) + rest;
    DivMod64(n);
    DivMod64(n / 64);
    DivMod64(n / 4096);
    if n < 0x80 {
      assert bs[1..] == rest;
    } else if n < 0x800 {
      assert bs[2..] == rest;
      assert (bs[0] as int - 0xC0) * 64 + (bs[1] as int - 0x80) == n;
    } else if n < 0x1_0000 {
      assert bs[3..] == rest;
      assert Decode3(bs[0] as int, bs[1], bs[2]) == n;
    } else {
      assert bs[4..] == rest;
      assert Decode4(bs[0] as int, bs[1], bs[2], bs[3]) == n;
    }
  }

  /** RFC 3629 round trip: decoding an encoded string gives the string. */
  lemma {:induction false} DecodeEncode(s: string)
    ensures Decode(Encode(s)) == s
  {
    if |s| > 0 {
      DecodeEncodeChar(s[0], Encode(s[1..]));
      DecodeEncode(s[1..]);
    }
  }

  lemma {:induction false} EncodeAppend(s: string, t: string)
    ensures Encode(s + t) == Encode(s) + Encode(t)
  {
    if |s| > 0 {
      assert (s + t)[1..] == s[1..] + t;
      EncodeAppend(s[1..], t);
    } else {
      assert s + t == t;
    }
  }

  /** A 0 byte appears in the encoding exactly where the text holds U+0000. */
  lemma {:induction false} EncodeZeroFree(s: string)
    requires forall i :: 0 <= i < |s| ==> s[i] != '\0'
    ensures forall k :: 0 <= k < |Encode(s)| ==> Encode(s)[k] != 0
  {
    if |s| > 0 {
      EncodeZeroFree(s[1..]);
      var e := EncodeChar(s[0]);
      forall k | 0 <= k < |Encode(s)| ensures Encode(s)[k] != 0 {
        if k >= |e| {
          assert Encode(s)[k] == Encode(s[1..])[k - |e|];
        }
      }
    }
  }

  // ----- The span -----

  datatype Utf8z = Utf8z(data: seq<uint8>)
  {
    /** Utf8z.Length. */
    function Length(): nat { |data| }
  }

  const Empty: Utf8z := Utf8z([])

  /** The memory a native pointer addresses holds a 0 byte somewhere. */
  predicate Terminated(mem: seq<uint8>) {
    exists k :: 0 <= k < |mem| && mem[k] == 0
  }

  /** The number of bytes before the first 0: what GetLen counts. */
  function ZeroIndex(mem: seq<uint8>): (n: nat)
    requires Terminated(mem)
    ensures n < |mem| && mem[n] == 0 && forall k :: 0 <= k < n ==> mem[k] != 0
  {
    if mem[0] == 0 then 0
    else
      assert Terminated(mem[1..]) by {
        var k :| 0 <= k < |mem| && mem[k] == 0;
        assert mem[1..][k - 1] == 0;
      }
      1 + ZeroIndex(mem[1..])
  }

  /** GetLen: walks the memory until the 0 byte. */
  method GetLen(mem: seq<uint8>) returns (len: nat)
    requires Terminated(mem)
    ensures len < |mem| && mem[len] == 0
    ensures forall k :: 0 <= k < len ==> mem[k] != 0
  {
    var bound := ZeroIndex(mem);
    len := 0;
    while mem[len] != 0
      invariant len <= bound
      invariant forall k :: 0 <= k < len ==> mem[k] != 0
      decreases bound - len
    {
      len := len + 1;
    }
  }

  /** FindZeroTerminator: the bytes before the first 0, and the 0 itself. */
  method FindZeroTerminator(mem: seq<uint8>) returns (span: seq<uint8>)
    requires Terminated(mem)
    ensures 0 < |span| <= |mem| && span[|span| - 1] == 0 && span == mem[..|span|]
    ensures forall k :: 0 <= k < |span| - 1 ==> span[k] != 0
  {
    var len := GetLen(mem);
    span := mem[..len + 1];
  }

  /** The span of a pointer, as a function: the bytes up to and including the first 0. */
  function PointerSpan(mem: seq<uint8>): (span: seq<uint8>)
    requires Terminated(mem)
    ensures 0 < |span| <= |mem| && span[|span| - 1] == 0 && span == mem[..|span|]
    ensures forall k :: 0 <= k < |span| - 1 ==> span[k] != 0
  {
    mem[..ZeroIndex(mem) + 1]
  }

  predicate ValidPointer(p: Option<seq<uint8>>) {
    p.Some? ==> Terminated(p.value)
  }

  /** new Utf8z(byte* p): empty for a null pointer, otherwise the zero-terminated span. */
  function FromPointer(p: Option<seq<uint8>>): (z: Utf8z)
    requires ValidPointer(p)
    ensures p.None? ==> z == Empty
    ensures p.Some? ==> (0 < |z.data| <= |p.value| && z.data[|z.data| - 1] == 0 && z.data == p.value[..|z.data|]
      && forall k :: 0 <= k < |z.data| - 1 ==> z.data[k] != 0)
  {
    if p.None? then Empty else Utf8z(PointerSpan(p.value))
  }

  /** FromPtrLen: exactly `length` bytes, no terminator. */
  function FromPtrLen(bytes: seq<uint8>): Utf8z {
    Utf8z(bytes)
  }

  /** The bytes FromString produces: the encoding and one 0 byte. */
  function Encoded(s: Option<string>): seq<uint8> {
    if s.None? then [] else Encode(s.value) + [0]
  }

  /** FromString: fills a fresh array with the encoding and writes the terminator after it. */
  method FromString(s: Option<string>) returns (data: seq<uint8>)
    ensures data == Encoded(s)
    ensures s.None? ==> |data| == 0
    ensures s.Some? ==> |data| == |Encode(s.value)| + 1 && data[|data| - 1] == 0
  {
    if s.None? {
      return [];
    }
    var bytes := Encode(s.value);
    var nlen := |bytes|;
    var byteArray := new uint8[nlen + 1](_ => 0);
    var wrote := 0;
    while wrote < nlen
      invariant 0 <= wrote <= nlen
      invariant forall k :: 0 <= k < wrote ==> byteArray[k] == bytes[k]
    {
      byteArray[wrote] := bytes[wrote];
      wrote := wrote + 1;
    }
    byteArray[wrote] := 0;
    data := byteArray[..];
  }

  /** The text before its first U+0000; all of it when it holds none. */
  function BeforeNul(s: string): string {
    if s == [] || s[0] == '\0' then [] else [s[0]] + BeforeNul(s[1..])
  }

  /** BeforeNul is the longest start of the text free of U+0000. */
  lemma {:induction false} BeforeNulIsPrefix(s: string)
    ensures BeforeNul(s) <= s && '\0' !in BeforeNul(s)
    ensures |BeforeNul(s)| < |s| ==> s[|BeforeNul(s)|] == '\0'
  {
    if s != [] && s[0] != '\0' {
      BeforeNulIsPrefix(s[1..]);
      assert s == [s[0]] + s[1..];
    }
  }

  /**
   * Native code handed the zero-terminated encoding of a string reads up to
   * its first 0 octet, which is where the first U+0000 of the text is
   * encoded: it reads back the text before that character.
   */
  lemma ReadUpToZero(s: string)
    ensures Terminated(Encoded(Some(s)))
    ensures Decode(Encoded(Some(s))[..ZeroIndex(Encoded(Some(s)))]) == BeforeNul(s)
  {
    var t := BeforeNul(s);
    BeforeNulIsPrefix(s);
    var rest := s[|t|..];
    assert s == t + rest;
    EncodeAppend(t, rest);
    EncodeZeroFree(t);
    var mem := Encoded(Some(s));
    assert mem == Encode(t) + Encode(rest) + [0];
    assert mem[|Encode(t)|] == 0 by {
      if rest != [] {
        assert Encode(rest) == EncodeChar(rest[0]) + Encode(rest[1..]);
      }
    }
    assert Terminated(mem);
    var n := ZeroIndex(mem);
    assert forall k :: 0 <= k < |Encode(t)| ==> mem[k] == Encode(t)[k];
    assert n == |Encode(t)|;
    assert mem[..n] == Encode(t);
    DecodeEncode(t);
  }

  /** Utf8z(string? s). */
  function OfString(s: Option<string>): Utf8z {
    Utf8z(Encoded(s))
  }

  // ----- Hash -----

  // BitOperations.RotateLeft by the three fixed amounts the hash uses.
  function Rotl5(value: bv32): bv32 { (value << 5) | (value >> 27) }
  function Rotl7(value: bv32): bv32 { (value << 7) | (value >> 25) }
  function Rotl15(value: bv32): bv32 { (value << 15) | (value >> 17) }

  /** *(int*)a: four bytes read little-endian, as an unsigned number. */
  function Word32(b0: uint8, b1: uint8, b2: uint8, b3: uint8): (w: int)
    ensures 0 <= w < 0x1_0000_0000
  {
    b0 + 0x100 * b1 + 0x1_0000 * b2 + 0x100_0000 * b3
  }

  /** *(short*)a: two bytes read little-endian and sign-extended. */
  function Half16(b0: uint8, b1: uint8): (h: int)
    ensures -0x8000 <= h < 0x8000
  {
    var v := b0 + 0x100 * b1;
    if b1 >= 0x80 then v - 0x1_0000 else v
  }

  /** The low 32 bits of a natural number, built bit by bit. */
  function Bits32(n: nat): bv32
    decreases n
  {
    if n == 0 then 0
    else if n % 2 == 0 then Bits32(n / 2) << 1
    else (Bits32(n / 2) << 1) | 1
  }

  /** The 32 bits of an int value, in two's complement. */
  function IntBits(i: int): bv32
    requires -0x8000_0000 <= i < 0x1_0000_0000
  {
    if i < 0 then Bits32(i + 0x1_0000_0000) else Bits32(i)
  }

  function Mix(h: bv32, w: bv32): bv32 {
    (h + Rotl5(h)) ^ w
  }

  /** The hash state after mixing in data[a..], four, then two, then one byte at a time. */
  function MixFrom(h: bv32, data: seq<uint8>, a: nat): bv32
    requires a <= |data|
    decreases |data| - a
  {
    if |data| - a >= 4 then MixFrom(Mix(h, Bits32(Word32(data[a], data[a + 1], data[a + 2], data[a + 3]))), data, a + 4)
    else if |data| - a >= 2 then MixFrom(Mix(h, IntBits(Half16(data[a], data[a + 1]))), data, a + 2)
    else if |data| - a == 1 then Mix(h, Bits32(data[a]))
    else h
  }

  // The two final avalanche steps, h += RotateLeft(h, 7) and h += RotateLeft(h, 15).
  function Spread7(h: bv32): bv32 { h + Rotl7(h) }
  function Spread15(h: bv32): bv32 { h + Rotl15(h) }

  /** The value GetHashCode returns for a span: a function of its bytes only. */
  function HashOf(data: seq<uint8>): bv32
    requires |data| < 0x8000_0000
  {
    Spread15(Spread7(MixFrom(Bits32(|data|), data, 0)))
  }

  /** GetHashCode. Spans are shorter than 2^31 bytes, as .NET spans are. */
  method GetHashCode(z: Utf8z) returns (hash: bv32)
    requires |z.data| < 0x8000_0000
    ensures hash == HashOf(z.data)
  {
    var length := |z.data|;
    hash := Bits32(length);
    ghost var target := MixFrom(hash, z.data, 0);
    var a := 0;
    while length >= 4
      invariant 0 <= a <= |z.data| && length == |z.data| - a
      invariant MixFrom(hash, z.data, a) == target
    {
      hash := Mix(hash, Bits32(Word32(z.data[a], z.data[a + 1], z.data[a + 2], z.data[a + 3])));
      a := a + 4;
      length := length - 4;
    }
    if length >= 2 {
      hash := Mix(hash, IntBits(Half16(z.data[a], z.data[a + 1])));
      a := a + 2;
      length := length - 2;
    }
    if length > 0 {
      hash := Mix(hash, Bits32(z.data[a]));
    }
    hash := Spread7(hash);
    hash := Spread15(hash);
  }

  /**
   * GetHashCode agrees with Equals: whenever Equals(a, b) answers true, the
   * two spans' GetHashCode results are the same.
   */
  method EqualsImpliesEqualHash(a: Utf8z, b: Utf8z) returns (equal: bool, hashA: bv32, hashB: bv32)
    requires |a.data| < 0x8000_0000 && |b.data| < 0x8000_0000
    ensures equal ==> hashA == hashB
    ensures equal <==> a.data == b.data
  {
    equal := Equals(a, b);
    hashA := GetHashCode(a);
    hashB := GetHashCode(b);
  }

  // ----- Equality and order -----

  lemma Word32Injective(a0: uint8, a1: uint8, a2: uint8, a3: uint8, b0: uint8, b1: uint8, b2: uint8, b3: uint8)
    ensures Word32(a0, a1, a2, a3) == Word32(b0, b1, b2, b3) <==> a0 == b0 && a1 == b1 && a2 == b2 && a3 == b3
  {
    if Word32(a0, a1, a2, a3) == Word32(b0, b1, b2, b3) {
      Base256Unique(a0, a1 + 0x100 * a2 + 0x1_0000 * a3, b0, b1 + 0x100 * b2 + 0x1_0000 * b3);
      Base256Unique(a1, a2 + 0x100 * a3, b1, b2 + 0x100 * b3);
      Base256Unique(a2, a3, b2, b3);
    }
  }

  lemma Base256Unique(x0: uint8, y0: int, x1: uint8, y1: int)
    requires x0 + 0x100 * y0 == x1 + 0x100 * y1
    ensures x0 == x1 && y0 == y1
  {
  }

  lemma Half16Injective(a0: uint8, a1: uint8, b0: uint8, b1: uint8)
    ensures Half16(a0, a1) == Half16(b0, b1) <==> a0 == b0 && a1 == b1
  {
  }

  /** Equals: lengths first, then four, two and one byte at a time. */
  method Equals(x: Utf8z, y: Utf8z) returns (eq: bool)
    ensures eq <==> x.data == y.data
  {
    var length := |x.data|;
    if length != |y.data| {
      return false;
    }
    var a := 0;
    while length >= 4
      invariant 0 <= a <= |x.data| && length == |x.data| - a
      invariant x.data[..a] == y.data[..a]
    {
      Word32Injective(x.data[a], x.data[a + 1], x.data[a + 2], x.data[a + 3],
                      y.data[a], y.data[a + 1], y.data[a + 2], y.data[a + 3]);
      if Word32(x.data[a], x.data[a + 1], x.data[a + 2], x.data[a + 3])
         != Word32(y.data[a], y.data[a + 1], y.data[a + 2], y.data[a + 3]) {
        return false;
      }
      assert x.data[..a + 4] == x.data[..a] + x.data[a..a + 4];
      assert y.data[..a + 4] == y.data[..a] + y.data[a..a + 4];
      a := a + 4;
      length := length - 4;
    }
    if length >= 2 {
      Half16Injective(x.data[a], x.data[a + 1], y.data[a], y.data[a + 1]);
      if Half16(x.data[a], x.data[a + 1]) != Half16(y.data[a], y.data[a + 1]) {
        return false;
      }
      assert x.data[..a + 2] == x.data[..a] + x.data[a..a + 2];
      assert y.data[..a + 2] == y.data[..a] + y.data[a..a + 2];
      a := a + 2;
      length := length - 2;
    }
    if length > 0 {
      if x.data[a] != y.data[a] {
        return false;
      }
      assert x.data[..a + 1] == x.data[..a] + [x.data[a]];
      assert y.data[..a + 1] == y.data[..a] + [y.data[a]];
      a := a + 1;
    }
    assert x.data == x.data[..a] && y.data == y.data[..a];
    return true;
  }

  /** The ordinal comparison: the difference of the first differing bytes, else of the lengths. */
  function CompareBytes(a: seq<uint8>, b: seq<uint8>): int {
    if |a| == 0 || |b| == 0 then |a| - |b|
    else if a[0] != b[0] then a[0] as int - b[0] as int
    else CompareBytes(a[1..], b[1..])
  }

  /** Compare: walks the common prefix byte by byte. */
  method Compare(x: Utf8z, y: Utf8z) returns (r: int)
    ensures r == CompareBytes(x.data, y.data)
  {
    var length := if |x.data| < |y.data| then |x.data| else |y.data|;
    var a := 0;
    while length > 0
      invariant 0 <= a <= |x.data| && a <= |y.data|
      invariant length == (if |x.data| < |y.data| then |x.data| else |y.data|) - a
      invariant CompareBytes(x.data[a..], y.data[a..]) == CompareBytes(x.data, y.data)
    {
      if x.data[a] != y.data[a] {
        return x.data[a] as int - y.data[a] as int;
      }
      assert x.data[a..][1..] == x.data[a + 1..] && y.data[a..][1..] == y.data[a + 1..];
      a := a + 1;
      length := length - 1;
    }
    return |x.data| - |y.data|;
  }

  lemma {:induction false} CompareAntisymmetric(a: seq<uint8>, b: seq<uint8>)
    ensures CompareBytes(a, b) == -CompareBytes(b, a)
  {
    if |a| > 0 && |b| > 0 && a[0] == b[0] {
      CompareAntisymmetric(a[1..], b[1..]);
    }
  }

  /** Compare is zero exactly for equal spans. */
  lemma {:induction false} CompareZeroIffEqual(a: seq<uint8>, b: seq<uint8>)
    ensures CompareBytes(a, b) == 0 <==> a == b
  {
    if |a| > 0 && |b| > 0 {
      CompareZeroIffEqual(a[1..], b[1..]);
      if a[0] == b[0] {
        assert a == [a[0]] + a[1..] && b == [b[0]] + b[1..];
      }
    }
  }

  // ----- Back to text -----

  /** ToString as written: null for an empty span, otherwise every byte decoded, the terminator too. */
  function ToStringAsWritten(z: Utf8z): (s: Option<string>)
    ensures s.None? <==> |z.data| == 0
  {
    if |z.data| == 0 then None else Some(Decode(z.data))
  }

  /** The text bytes of a span: a final 0 byte is the terminator, not text. */
  function TextBytes(data: seq<uint8>): seq<uint8> {
    if |data| > 0 && data[|data| - 1] == 0 then data[..|data| - 1] else data
  }

  /** ToString with the terminator left out of the decoded bytes. */
  function ToString(z: Utf8z): (s: Option<string>)
    ensures s.None? <==> |z.data| == 0
  {
    if |z.data| == 0 then None else Some(Decode(TextBytes(z.data)))
  }

  /** A string survives FromString followed by ToString. */
  lemma ToStringOfString(s: string)
    ensures ToString(OfString(Some(s))) == Some(s)
  {
    assert TextBytes(Encode(s) + [0]) == Encode(s);
    DecodeEncode(s);
  }

  /** A span of pointer memory decodes to the text before the first 0. */
  lemma ToStringOfPointer(mem: seq<uint8>)
    requires Terminated(mem)
    ensures ToString(FromPointer(Some(mem))) == Some(Decode(mem[..ZeroIndex(mem)]))
  {
    assert TextBytes(PointerSpan(mem)) == mem[..ZeroIndex(mem)];
  }

  /** Spans without a terminator (FromPtrLen) decode the same either way unless their last byte is 0. */
  lemma ToStringAgreesWithoutTerminator(z: Utf8z)
    requires |z.data| == 0 || z.data[|z.data| - 1] != 0
    ensures ToString(z) == ToStringAsWritten(z)
  {
  }

  /** As written, a string does not survive the round trip: a U+0000 is appended. */
  lemma ToStringAsWrittenKeepsTerminator(s: string)
    ensures ToStringAsWritten(OfString(Some(s))) == Some(s + ['\0'])
  {
    DecodeEncode(s + ['\0']);
    EncodeAppend(s, ['\0']);
    assert Encode(['\0']) == [0];
  }

  /** The zero-terminated bytes of the column name "id". */
  const IdName: seq<uint8> := [0x69, 0x64, 0]

  /** The column name "id" read through a pointer comes back as "id\0" as written, and as "id" once corrected. */
  lemma ToStringAsWrittenCounterexample()
    ensures Terminated(IdName)
    ensures ToStringAsWritten(FromPointer(Some(IdName))) == Some("id\0")
    ensures ToString(FromPointer(Some(IdName))) == Some("id")
  {
    assert IdName[2] == 0;
    assert ZeroIndex(IdName) == 2 by {
      assert IdName[1..][1..] == [0];
    }
    assert PointerSpan(IdName) == IdName;
    assert Decode([0x69, 0x64, 0]) == "id\0" by {
      assert Decode([0]) == "\0";
      assert Decode([0x64, 0]) == "d\0";
    }
    assert Decode([0x69, 0x64]) == "id" by {
      assert Decode([0x64]) == "d";
    }
  }
}
