// MD5 over whole blocks, its padding, and the CRAM digest of source/bforce/u_md5.c, against
// RFC 1321 (sections 3.1 to 3.5) and RFC 2104 (section 2).  The compression of one block is
// a parameter: everything holds for every such function.
module Md5 {
  import opened Crc

  datatype Words = Words(a: bv32, b: bv32, c: bv32, d: bv32)

  type Compression = (Words, seq<Byte>) -> Words

  const START := Words(0x67452301, 0xefcdab89, 0x98badcfe, 0x10325476)

  // ---------------------------------------------------------------------------
  // The standard
  // ---------------------------------------------------------------------------

  predicate Whole(m: seq<Byte>) {
    |m| % 64 == 0
  }

  // The blocks of m, one after the other
  function Fold(f: Compression, w: Words, m: seq<Byte>): Words
    requires Whole(m)
    decreases |m|
  {
    if m == [] then w else Fold(f, f(w, m[..64]), m[64..])
  }

  function Zeros(n: nat): (z: seq<Byte>)
    ensures |z| == n && forall i :: 0 <= i < n ==> z[i] == 0
  {
    if n == 0 then [] else Zeros(n - 1) + [0]
  }

  function Octet(n: nat): Byte {
    ByteOf(n % 256)
  }

  // The four low-order bytes of a number, least significant first
  function Low(v: nat): (b: seq<Byte>)
    ensures |b| == 4
  {
    [Octet(v), Octet(v / 0x100), Octet(v / 0x1_0000), Octet(v / 0x100_0000)]
  }

  function Gap(n: nat): (g: nat)
    ensures g < 64 && (n + 1 + g) % 64 == 56
  {
    if n % 64 <= 55 then 55 - n % 64 else 119 - n % 64
  }

  // A one bit, zeros up to 56 modulo 64, and the length in bits as 64 bits
  function Pad(m: seq<Byte>): (p: seq<Byte>)
    ensures Whole(p)
  {
    hide Low, Zeros;
    m + [0x80] + Zeros(Gap(|m|)) + (Low(8 * |m|) + Low(8 * |m| / 0x1_0000_0000))
  }

  function WordBytes(x: bv32): (b: seq<Byte>)
    ensures |b| == 4
  {
    [(x & 0xff) as Byte, ((x >> 8) & 0xff) as Byte, ((x >> 16) & 0xff) as Byte, ((x >> 24) & 0xff) as Byte]
  }

  // The least significant byte comes first.
  lemma WordBytesAre(x: bv32)
    ensures var b := WordBytes(x);
            x == b[0] as bv32 | (b[1] as bv32 << 8) | (b[2] as bv32 << 16) | (b[3] as bv32 << 24)
  {
  }

  function Bytes(w: Words): (b: seq<Byte>)
    ensures |b| == 16
  {
    WordBytes(w.a) + WordBytes(w.b) + WordBytes(w.c) + WordBytes(w.d)
  }

  // The words follow each other from a to d.
  lemma BytesAre(w: Words)
    ensures var b := Bytes(w);
            && WordBytes(w.a) == b[..4] && WordBytes(w.b) == b[4..8]
            && WordBytes(w.c) == b[8..12] && WordBytes(w.d) == b[12..]
  {
    hide WordBytes;
  }

  function Hash(f: Compression, m: seq<Byte>): (d: seq<Byte>)
    ensures |d| == 16
  {
    Bytes(Fold(f, START, Pad(m)))
  }

  function XorAll(m: seq<Byte>, c: Byte): (r: seq<Byte>)
    ensures |r| == |m| && forall i :: 0 <= i < |m| ==> r[i] == m[i] ^ c
  {
    if m == [] then [] else XorAll(m[..|m| - 1], c) + [m[|m| - 1] ^ c]
  }

  // The key of RFC 2104: hashed if it is longer than a block, filled up with zeros
  function Key(hash: seq<Byte> -> seq<Byte>, secret: seq<Byte>): (k: seq<Byte>)
    requires forall m: seq<Byte> :: |hash(m)| == 16
    ensures |k| == 64
  {
    var s := if |secret| > 64 then hash(secret) else secret;
    s + Zeros(64 - |s|)
  }

  function Hmac(hash: seq<Byte> -> seq<Byte>, secret: seq<Byte>, text: seq<Byte>): seq<Byte>
    requires forall m: seq<Byte> :: |hash(m)| == 16
  {
    var k := Key(hash, secret);
    hash(XorAll(k, 0x5c) + hash(XorAll(k, 0x36) + text))
  }

  // ---------------------------------------------------------------------------
  // The padding as it is done
  // ---------------------------------------------------------------------------

  // Only four bytes of the length are stored; the four above them stay zero.
  function StoredPad(m: seq<Byte>): (p: seq<Byte>)
    ensures Whole(p)
  {
    hide Low, Zeros;
    m + [0x80] + Zeros(Gap(|m|)) + (Low(8 * |m|) + Zeros(4))
  }

  lemma OctetValue(n: nat)
    ensures ValueOf(Octet(n)) == n % 256
  {
    hide ByteOf, ValueOf;
    ValueOfByte(n % 256);
  }

  lemma ZeroValue()
    ensures ValueOf(0) == 0
  {
  }

  lemma LowIsZero(v: nat)
    requires v < 0x1_0000_0000
    ensures Low(v) == Zeros(4) <==> v == 0
  {
    hide Octet, ValueOf;
    OctetValue(v);
    OctetValue(v / 0x100);
    OctetValue(v / 0x1_0000);
    OctetValue(v / 0x100_0000);
    ZeroValue();
    Digits(v);
    if v == 0 {
      OctetZero();
      assert Low(0) == Zeros(4);
    } else {
      assert Zeros(4)[0] == Zeros(4)[1] == Zeros(4)[2] == Zeros(4)[3] == 0;
    }
  }

  lemma OctetZero()
    ensures Octet(0) == 0
  {
    ByteOfValue(0);
  }

  lemma Digits(v: nat)
    requires v < 0x1_0000_0000
    ensures v % 256 + 0x100 * (v / 0x100 % 256) + 0x1_0000 * (v / 0x1_0000 % 256)
            + 0x100_0000 * (v / 0x100_0000 % 256) == v
  {
    assert v / 0x1_0000 == v / 0x100 / 0x100;
    assert v / 0x100_0000 == v / 0x100 / 0x100 / 0x100;
  }

  // The stored padding is the standard's exactly for messages of less than 2^29 bytes.
  lemma PaddingLimit(m: seq<Byte>)
    requires |m| < 0x2000_0000_0000_0000
    ensures StoredPad(m) == Pad(m) <==> |m| < 0x2000_0000
  {
    hide Low, Zeros;
    var high := 8 * |m| / 0x1_0000_0000;
    LowIsZero(high);
    var front := m + [0x80] + Zeros(Gap(|m|)) + Low(8 * |m|);
    assert Pad(m) == front + Low(high);
    assert StoredPad(m) == front + Zeros(4);
    assert Pad(m)[|front|..] == Low(high) && StoredPad(m)[|front|..] == Zeros(4);
  }

  // ---------------------------------------------------------------------------
  // Blocks
  // ---------------------------------------------------------------------------

  lemma {:induction false} FoldConcat(f: Compression, w: Words, a: seq<Byte>, b: seq<Byte>)
    requires Whole(a) && Whole(b)
    ensures Whole(a + b) && Fold(f, w, a + b) == Fold(f, Fold(f, w, a), b)
    decreases |a|
  {
    if a == [] {
      assert a + b == b;
    } else {
      assert (a + b)[..64] == a[..64] && (a + b)[64..] == a[64..] + b;
      FoldConcat(f, f(w, a[..64]), a[64..], b);
    }
  }

  lemma FoldBlock(f: Compression, w: Words, block: seq<Byte>)
    requires |block| == 64
    ensures Fold(f, w, block) == f(w, block)
  {
    assert block[..64] == block && block[64..] == [];
  }

  // ---------------------------------------------------------------------------
  // The procedures
  // ---------------------------------------------------------------------------

  class Md5State {
    const f: Compression
    var chunks: int
    var buf: Words
    ghost var taken: seq<Byte>    // the blocks taken so far

    ghost predicate Valid()
      reads this
    {
      Whole(taken) && buf == Fold(f, START, taken)
    }

    // md5_init
    constructor (f: Compression)
      ensures Valid() && this.f == f && chunks == 0 && taken == []
    {
      this.f := f;
      chunks, buf, taken := 0, START, [];
    }

    // md5_update
    method Update(block: seq<Byte>)
      requires Valid() && |block| == 64
      modifies this
      ensures Valid() && taken == old(taken) + block && chunks == old(chunks) + 1
    {
      hide Fold;
      FoldConcat(f, START, taken, block);
      FoldBlock(f, buf, block);
      chunks := chunks + 1;
      buf := f(buf, block);
      taken := taken + block;
    }

    // md5_compute, after any number of calls of Update
    method Compute(data: seq<Byte>) returns (digest: seq<Byte>)
      requires Valid() && 64 * chunks == |taken|
      modifies this
      ensures digest == Bytes(Fold(f, START, StoredPad(old(taken) + data)))
    {
      hide Fold, Low, Bytes, Zeros;
      var n := 0;
      assert taken + data[..0] == taken;
      while |data| - n >= 64
        invariant n <= |data| && n % 64 == 0
        invariant Valid() && 64 * chunks == |taken| && taken == old(taken) + data[..n]
      {
        assert data[..n + 64] == data[..n] + data[n..n + 64];
        Update(data[n..n + 64]);
        n := n + 64;
      }
      digest := Finish(data[n..]);
      assert old(taken) + data[..n] + data[n..] == old(taken) + data;
    }

    // The scratch buffer behind the last whole block
    method Finish(rest: seq<Byte>) returns (digest: seq<Byte>)
      requires |rest| < 64 && Valid() && 64 * chunks == |taken|
      modifies this
      ensures digest == Bytes(Fold(f, START, StoredPad(old(taken) + rest)))
    {
      hide Fold, Low, Bytes, Zeros, StoredPad;
      ghost var before := taken;
      var buffer := new Byte[64](_ => 0);
      Fill(buffer, rest);
      ghost var tail := Front(rest);
      if |rest| > 55 {
        PadLong(before, rest);
        Update(buffer[..]);
        Clear(buffer);
        chunks := chunks - 1;
        tail := Zeros(56);
      } else {
        PadShort(before, rest);
      }
      assert buffer[..] == tail + Zeros(8);
      var length := 8 * (|rest| + 64 * chunks);
      StoreLength(buffer, length, tail);
      assert StoredPad(before + rest) == taken + buffer[..];
      Update(buffer[..]);
      digest := Bytes(buf);
    }
  }

  // What the scratch buffer starts with when the length still fits behind it.
  function Front(rest: seq<Byte>): seq<Byte>
    requires |rest| < 64
  {
    rest + [0x80] + Zeros(if |rest| <= 55 then 55 - |rest| else 0)
  }

  lemma {:induction false} ZerosAdd(a: nat, b: nat)
    ensures Zeros(a + b) == Zeros(a) + Zeros(b)
    decreases b
  {
    if b > 0 {
      ZerosAdd(a, b - 1);
    }
  }

  method Clear(buffer: array<Byte>)
    requires buffer.Length == 64
    modifies buffer
    ensures buffer[..] == Zeros(56) + Zeros(8)
  {
    hide Zeros;
    for i := 0 to 64
      invariant forall k :: 0 <= k < i ==> buffer[k] == 0
    {
      buffer[i] := 0;
    }
  }

  lemma PadShort(before: seq<Byte>, rest: seq<Byte>)
    requires Whole(before) && |rest| <= 55
    ensures |Front(rest)| == 56 && rest + [0x80] + Zeros(63 - |rest|) == Front(rest) + Zeros(8)
    ensures StoredPad(before + rest) == before + (Front(rest) + (Low(8 * (|before| + |rest|)) + Zeros(4)))
  {
    hide Zeros, Low;
    ZerosAdd(55 - |rest|, 8);
    GapOf(before, rest);
  }

  lemma GapOf(before: seq<Byte>, rest: seq<Byte>)
    requires Whole(before) && |rest| < 64
    ensures Gap(|before + rest|) == if |rest| <= 55 then 55 - |rest| else 119 - |rest|
  {
    assert (|before| + |rest|) % 64 == |rest|;
  }

  lemma PadLong(before: seq<Byte>, rest: seq<Byte>)
    requires Whole(before) && 55 < |rest| < 64
    ensures StoredPad(before + rest)
         == before + (rest + [0x80] + Zeros(63 - |rest|)) + (Zeros(56) + (Low(8 * (|before| + |rest|)) + Zeros(4)))
  {
    hide Zeros, Low;
    ZerosAdd(63 - |rest|, 56);
    GapOf(before, rest);
  }

  // memcpy, the 0x80 and memset
  method Fill(buffer: array<Byte>, rest: seq<Byte>)
    requires buffer.Length == 64 && |rest| < 64
    modifies buffer
    ensures buffer[..] == rest + [0x80] + Zeros(63 - |rest|)
  {
    hide Zeros;
    for i := 0 to |rest|
      invariant forall k :: 0 <= k < i ==> buffer[k] == rest[k]
    {
      buffer[i] := rest[i];
    }
    buffer[|rest|] := 0x80;
    for i := |rest| + 1 to 64
      invariant forall k :: 0 <= k < |rest| ==> buffer[k] == rest[k]
      invariant buffer[|rest|] == 0x80
      invariant forall k :: |rest| < k < i ==> buffer[k] == 0
    {
      buffer[i] := 0;
    }
  }

  method StoreLength(buffer: array<Byte>, length: nat, ghost tail: seq<Byte>)
    requires buffer.Length == 64 && |tail| == 56 && buffer[..] == tail + Zeros(8)
    modifies buffer
    ensures buffer[..] == tail + (Low(length) + Zeros(4))
  {
    hide Zeros, Octet;
    buffer[56] := Octet(length);
    buffer[57] := Octet(length / 0x100);
    buffer[58] := Octet(length / 0x1_0000);
    buffer[59] := Octet(length / 0x100_0000);
  }

  // ---------------------------------------------------------------------------
  // Digests
  // ---------------------------------------------------------------------------

  function StoredHash(f: Compression, m: seq<Byte>): (d: seq<Byte>)
    ensures |d| == 16
  {
    Bytes(Fold(f, START, StoredPad(m)))
  }

  lemma HashesAgree(f: Compression, m: seq<Byte>)
    requires |m| < 0x2000_0000
    ensures StoredHash(f, m) == Hash(f, m)
  {
    hide StoredPad, Pad;
    PaddingLimit(m);
  }

  // md5_get
  method Get(f: Compression, data: seq<Byte>) returns (digest: seq<Byte>)
    ensures digest == StoredHash(f, data)
  {
    hide Fold, StoredPad, Bytes;
    var md := new Md5State(f);
    digest := md.Compute(data);
    assert [] + data == data;
  }

  // The secret filled up with zeros, combined with opad and with ipad
  method KeyPads(s: seq<Byte>) returns (opad: seq<Byte>, ipad: seq<Byte>)
    requires |s| <= 64
    ensures opad == XorAll(s + Zeros(64 - |s|), 0x5c) && ipad == XorAll(s + Zeros(64 - |s|), 0x36)
  {
    hide Zeros, XorAll;
    ghost var key := s + Zeros(64 - |s|);
    var osecret := new Byte[64](_ => 0);
    var isecret := new Byte[64](_ => 0);
    for i := 0 to |s|
      invariant forall k :: 0 <= k < i ==> osecret[k] == s[k] && isecret[k] == s[k]
      invariant forall k :: i <= k < 64 ==> osecret[k] == 0 && isecret[k] == 0
    {
      osecret[i] := s[i];
      isecret[i] := s[i];
    }
    assert osecret[..] == key && isecret[..] == key;
    for i := 0 to 64
      invariant forall k :: 0 <= k < 64 ==> osecret[k] == if k < i then key[k] ^ 0x5c else key[k]
      invariant forall k :: 0 <= k < 64 ==> isecret[k] == if k < i then key[k] ^ 0x36 else key[k]
    {
      osecret[i] := osecret[i] ^ 0x5c;
      isecret[i] := isecret[i] ^ 0x36;
    }
    opad, ipad := osecret[..], isecret[..];
  }

  // md5_cram_get
  method CramGet(f: Compression, secret: seq<Byte>, challenge: seq<Byte>) returns (digest: seq<Byte>)
    ensures digest == Hmac(m => StoredHash(f, m), secret, challenge)
  {
    hide Fold, StoredPad, Bytes, StoredHash, Zeros, XorAll;
    var s := secret;
    if |secret| > 64 {
      s := Get(f, secret);
    }
    assert s + Zeros(64 - |s|) == Key(m => StoredHash(f, m), secret);
    var osecret, isecret := KeyPads(s);
    var inner := Prefixed(f, isecret, challenge);
    digest := Prefixed(f, osecret, inner);
  }

  // One whole block, then the rest
  method Prefixed(f: Compression, block: seq<Byte>, data: seq<Byte>) returns (digest: seq<Byte>)
    requires |block| == 64
    ensures digest == StoredHash(f, block + data)
  {
    hide Fold, StoredPad, Bytes;
    var md := new Md5State(f);
    md.Update(block);
    assert [] + block == block;
    digest := md.Compute(data);
  }

  // CRAM-MD5 is the keyed hash of RFC 2104 for every secret and challenge short of the
  // limit of the stored length.
  lemma CramIsHmac(f: Compression, secret: seq<Byte>, challenge: seq<Byte>)
    requires |secret| < 0x2000_0000 && |challenge| < 0x2000_0000 - 64
    ensures Hmac(m => StoredHash(f, m), secret, challenge) == Hmac(m => Hash(f, m), secret, challenge)
  {
    hide StoredHash, Hash, XorAll, Zeros;
    HashesAgree(f, secret);
    var k := Key(m => StoredHash(f, m), secret);
    assert k == Key(m => Hash(f, m), secret);
    HashesAgree(f, XorAll(k, 0x36) + challenge);
    HashesAgree(f, XorAll(k, 0x5c) + Hash(f, XorAll(k, 0x36) + challenge));
  }
}
