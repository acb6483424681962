// The stream cipher of source/bforce/prot_binkp_crypt.c, whose keys advance with the
// plaintext.  An unsigned long is taken as 32 bits: wider words change no byte, because
// keys[0] and keys[2] stay below 2^32 and only bits 24 to 31 of keys[1] are looked at.
// crc_32_tab holds the same 256 entries as TableCRC32CCITT.
module BinkpCrypt {
  import opened Crc
  import opened Bits

  datatype Keys = Keys(k0: bv32, k1: bv32, k2: bv32)

  // update_keys
  function Update(k: Keys, c: Byte): Keys {
    var k0 := Step32(k.k0, c);
    var k1 := Stir(k.k1, k0);
    Keys(k0, k1, Step32(k.k2, KeyShift(k1)))
  }

  function Stir(k1: bv32, k0: bv32): bv32 { Plus(Product(Plus(k1, Low32(k0)), 134775813), 1) }

  function KeyShift(k1: bv32): Byte { (k1 >> 24) as Byte }

  // decrypt_byte
  function KeyByte(k: Keys): Byte {
    var temp := Odd(k.k2);
    Middle(Product(temp, Neighbour(temp)))
  }

  function Odd(x: bv32): bv32 { (x & 0xffff) | 2 }

  function Neighbour(x: bv32): bv32 { x ^ 1 }

  function Middle(x: bv32): Byte { ((x >> 8) & 0xff) as Byte }

  function Mix(c: Byte, key: Byte): Byte { c ^ key }

  // ---------------------------------------------------------------------------
  // The same by other means: polynomial division for two of the keys, shifts and sums for the
  // products
  // ---------------------------------------------------------------------------

  function Below(x: bv32): bv32 { (x << 24) >> 24 }

  // The byte at the upper end
  predicate IsTop(b: Byte, x: bv32) {
    (b as bv32) << 24 == x & 0xff00_0000
  }

  predicate IsMiddle(b: Byte, x: bv32) {
    b as bv32 == (x << 16) >> 24
  }

  ghost predicate Follows(k: Keys, c: Byte, n: Keys) {
    && n.k0 == Crc32(k.k0, [c])
    && n.k1 == Plus(Times(Plus(k.k1, Below(n.k0))), 1)
    && exists top: Byte :: IsTop(top, n.k1) && n.k2 == Crc32(k.k2, [top])
  }

  // Bits 8 to 15 of that product, t being the lower half of the last key with its second bit set
  predicate IsKeyByte(k: Keys, b: Byte) {
    IsMiddle(b, Pronic(WithTwo(Half(k.k2))))
  }

  lemma BelowIs(x: bv32)
    ensures Low32(x) == Below(x)
  {
  }

  lemma StirIs(k1: bv32, k0: bv32)
    ensures Stir(k1, k0) == Plus(Times(Plus(k1, Below(k0))), 1)
  {
    hide Product, Times, Plus, Low32, Below;
    BelowIs(k0);
    TimesIs(Plus(k1, Below(k0)));
  }

  lemma KeyShiftIsTop(x: bv32)
    ensures IsTop(KeyShift(x), x)
  {
  }

  lemma CrcOfOne(reg: bv32, b: Byte)
    ensures Step32(reg, b) == Crc32(reg, [b])
  {
    hide Bits32, Step32, Xor32, In32;
    Step32IsDivision(reg, b);
    assert [b][..0] == [] && Crc32(reg, []) == reg;
  }

  lemma UpdateFollows(k: Keys, c: Byte)
    ensures Follows(k, c, Update(k, c))
  {
    hide Stir, KeyShift, Step32, Crc32, Times, Below, Plus, IsTop;
    var n := Update(k, c);
    CrcOfOne(k.k0, c);
    StirIs(k.k1, n.k0);
    KeyShiftIsTop(n.k1);
    CrcOfOne(k.k2, KeyShift(n.k1));
  }

  // These relations leave no choice.
  lemma FollowsOnce(k: Keys, c: Byte, m: Keys, n: Keys)
    requires Follows(k, c, m) && Follows(k, c, n)
    ensures m == n
  {
    hide Crc32, Times, Below, Plus, IsTop;
    var a: Byte :| IsTop(a, m.k1) && m.k2 == Crc32(k.k2, [a]);
    var b: Byte :| IsTop(b, n.k1) && n.k2 == Crc32(k.k2, [b]);
    OneTop(a, b, m.k1);
  }

  lemma OneTop(a: Byte, b: Byte, x: bv32)
    requires IsTop(a, x) && IsTop(b, x)
    ensures a == b
  {
  }

  lemma KeyByteIs(k: Keys)
    ensures IsKeyByte(k, KeyByte(k))
  {
    hide Odd, Product, Neighbour, Middle, Half, WithTwo, Pronic, IsMiddle;
    OddIs(k.k2);
    NeighbourFlips(Odd(k.k2));
    PronicIs(Odd(k.k2), Neighbour(Odd(k.k2)));
    MiddleIs(Pronic(Odd(k.k2)));
  }

  // The key byte depends on fourteen bits of the keys, those of weight 4 to 2^15 in the third.
  lemma BitsUsed(k: Keys, l: Keys)
    requires k.k2 & 0xfffc == l.k2 & 0xfffc
    ensures KeyByte(k) == KeyByte(l)
  {
    hide Product, Odd, Neighbour, Middle;
    OddsMeet(k.k2, l.k2);
    NeighbourBack(Odd(k.k2));
    if Odd(k.k2) != Odd(l.k2) {
      Commutes(Odd(k.k2), Odd(l.k2));
    }
  }

  lemma OddsMeet(x: bv32, y: bv32)
    requires x & 0xfffc == y & 0xfffc
    ensures Odd(x) == Odd(y) || Odd(y) == Neighbour(Odd(x))
  {
  }

  lemma NeighbourBack(x: bv32)
    ensures Neighbour(Neighbour(x)) == x
  {
  }

  // Keys that differ in these bits may give the same byte all the same.
  lemma BytesMayAgree()
    ensures KeyByte(Keys(0, 0, 0)) == KeyByte(Keys(0, 0, 4)) == 0
  {
  }

  lemma NeighbourFlips(x: bv32)
    ensures Neighbour(x) == x ^ 1
  {
  }

  lemma OddIs(x: bv32)
    ensures Odd(x) == WithTwo(Half(x))
  {
    hide Half, WithTwo;
    HalfIs(x);
    WithTwoIs(x & 0xffff);
  }

  lemma MiddleIs(x: bv32)
    ensures IsMiddle(Middle(x), x)
  {
  }

  lemma OneMiddle(a: Byte, b: Byte, x: bv32)
    requires IsMiddle(a, x) && IsMiddle(b, x)
    ensures a == b
  {
  }

  lemma MixTwice(c: Byte, key: Byte)
    ensures Mix(Mix(c, key), key) == c
  {
  }

  // The keys once the plaintext has gone by.
  function After(k: Keys, plain: seq<Byte>): Keys
    decreases plain
  {
    if plain == [] then k else After(Update(k, plain[0]), plain[1..])
  }

  function Encrypt(k: Keys, plain: seq<Byte>): (c: seq<Byte>)
    ensures |c| == |plain|
    decreases plain
  {
    if plain == [] then [] else [Mix(plain[0], KeyByte(k))] + Encrypt(Update(k, plain[0]), plain[1..])
  }

  function Decrypt(k: Keys, cipher: seq<Byte>): (p: seq<Byte>)
    ensures |p| == |cipher|
    decreases cipher
  {
    if cipher == [] then []
    else
      var p := Mix(cipher[0], KeyByte(k));
      [p] + Decrypt(Update(k, p), cipher[1..])
  }

  lemma {:induction false} DecryptInverts(k: Keys, plain: seq<Byte>)
    ensures Decrypt(k, Encrypt(k, plain)) == plain
    decreases plain
  {
    hide Update, KeyByte, Mix;
    if plain != [] {
      MixTwice(plain[0], KeyByte(k));
      DecryptInverts(Update(k, plain[0]), plain[1..]);
    }
  }

  lemma {:induction false} AfterConcat(k: Keys, a: seq<Byte>, b: seq<Byte>)
    ensures After(k, a + b) == After(After(k, a), b)
    decreases a
  {
    hide Update;
    if a == [] {
      assert a + b == b;
    } else {
      assert (a + b)[1..] == a[1..] + b;
      AfterConcat(Update(k, a[0]), a[1..], b);
    }
  }

  lemma {:induction false} EncryptConcat(k: Keys, a: seq<Byte>, b: seq<Byte>)
    ensures Encrypt(k, a + b) == Encrypt(k, a) + Encrypt(After(k, a), b)
    decreases a
  {
    hide Update, KeyByte, Mix;
    if a == [] {
      assert a + b == b;
    } else {
      assert (a + b)[1..] == a[1..] + b;
      EncryptConcat(Update(k, a[0]), a[1..], b);
    }
  }

  // However the cipher text is cut up, decrypting the pieces decrypts the whole.
  lemma {:induction false} DecryptConcat(k: Keys, a: seq<Byte>, b: seq<Byte>)
    ensures Decrypt(k, a + b) == Decrypt(k, a) + Decrypt(After(k, Decrypt(k, a)), b)
    decreases a
  {
    hide Update, KeyByte, Mix;
    if a == [] {
      assert a + b == b;
    } else {
      assert (a + b)[1..] == a[1..] + b;
      DecryptConcat(Update(k, Mix(a[0], KeyByte(k))), a[1..], b);
    }
  }

  lemma {:induction false} EncryptAt(k: Keys, plain: seq<Byte>, j: nat)
    requires j < |plain|
    ensures Encrypt(k, plain)[j] == Mix(plain[j], KeyByte(After(k, plain[..j])))
    decreases plain
  {
    hide Update, KeyByte, Mix;
    if j > 0 {
      assert plain[..j][1..] == plain[1..][..j - 1];
      EncryptAt(Update(k, plain[0]), plain[1..], j - 1);
    }
  }

  lemma {:induction false} DecryptAt(k: Keys, cipher: seq<Byte>, j: nat)
    requires j < |cipher|
    ensures Decrypt(k, cipher)[j] == Mix(cipher[j], KeyByte(After(k, Decrypt(k, cipher)[..j])))
    decreases cipher
  {
    hide Update, KeyByte, Mix;
    if j > 0 {
      var p := Mix(cipher[0], KeyByte(k));
      DecryptAt(Update(k, p), cipher[1..], j - 1);
      assert Decrypt(k, cipher)[..j][1..] == Decrypt(Update(k, p), cipher[1..])[..j - 1];
    }
  }

  lemma AfterNothing(k: Keys)
    ensures After(k, []) == k
  {
  }

  lemma AfterOne(k: Keys, plain: seq<Byte>, j: nat)
    requires j < |plain|
    ensures After(k, plain[..j + 1]) == Update(After(k, plain[..j]), plain[j])
  {
    hide Update;
    AfterConcat(k, plain[..j], [plain[j]]);
    assert plain[..j + 1] == plain[..j] + [plain[j]];
  }

  // ---------------------------------------------------------------------------
  // The key stream
  // ---------------------------------------------------------------------------

  // The keys in front of each byte of a text
  ghost predicate Stream(ks: seq<Keys>, k: Keys, plain: seq<Byte>) {
    && |ks| == |plain| + 1 && ks[0] == k
    && forall j :: 0 <= j < |plain| ==> Follows(ks[j], plain[j], ks[j + 1])
  }

  // Every byte is mixed with the key byte of its place in the stream.
  ghost predicate Enciphered(k: Keys, plain: seq<Byte>, cipher: seq<Byte>) {
    && |cipher| == |plain|
    && forall ks: seq<Keys>, j :: Stream(ks, k, plain) && 0 <= j < |plain| ==> IsKeyByte(ks[j], plain[j] ^ cipher[j])
  }

  lemma {:induction false} StreamIs(ks: seq<Keys>, k: Keys, plain: seq<Byte>, j: nat)
    requires Stream(ks, k, plain) && j <= |plain|
    ensures ks[j] == After(k, plain[..j])
    decreases j
  {
    hide Follows, Update;
    if j == 0 {
      AfterNothing(k);
      assert plain[..0] == [];
    } else {
      StreamIs(ks, k, plain, j - 1);
      AfterOne(k, plain, j - 1);
      UpdateFollows(ks[j - 1], plain[j - 1]);
      FollowsOnce(ks[j - 1], plain[j - 1], ks[j], After(k, plain[..j]));
    }
  }

  lemma MixBack(p: Byte, key: Byte)
    ensures p ^ Mix(p, key) == key
  {
  }

  lemma EncryptedByStream(k: Keys, plain: seq<Byte>)
    ensures Enciphered(k, plain, Encrypt(k, plain))
  {
    hide Stream, Update, KeyByte, Mix, After, Encrypt, IsKeyByte;
    var cipher := Encrypt(k, plain);
    forall ks: seq<Keys>, j | Stream(ks, k, plain) && 0 <= j < |plain|
      ensures j < |ks| && IsKeyByte(ks[j], plain[j] ^ cipher[j])
    {
      assert |ks| == |plain| + 1 by { StreamLength(ks, k, plain); }
      StreamIs(ks, k, plain, j);
      EncryptAt(k, plain, j);
      MixBack(plain[j], KeyByte(ks[j]));
      KeyByteIs(ks[j]);
    }
  }

  lemma StreamLength(ks: seq<Keys>, k: Keys, plain: seq<Byte>)
    requires Stream(ks, k, plain)
    ensures |ks| == |plain| + 1
  {
  }

  lemma StreamOf(k: Keys, plain: seq<Byte>) returns (ks: seq<Keys>)
    ensures Stream(ks, k, plain)
  {
    hide Follows, Update, After;
    ks := seq(|plain| + 1, j requires 0 <= j < |plain| + 1 => After(k, plain[..j]));
    AfterNothing(k);
    assert plain[..0] == [];
    forall j | 0 <= j < |plain| ensures Follows(ks[j], plain[j], ks[j + 1]) {
      AfterOne(k, plain, j);
      UpdateFollows(ks[j], plain[j]);
    }
  }

  lemma {:induction false} EncryptInverts(k: Keys, cipher: seq<Byte>)
    ensures Encrypt(k, Decrypt(k, cipher)) == cipher
    decreases cipher
  {
    hide Update, KeyByte, Mix;
    if cipher != [] {
      MixTwice(cipher[0], KeyByte(k));
      EncryptInverts(Update(k, Mix(cipher[0], KeyByte(k))), cipher[1..]);
    }
  }

  // ---------------------------------------------------------------------------
  // Different keys stay different.
  // ---------------------------------------------------------------------------

  lemma Bit32Apart(x: bv32, y: bv32)
    requires Bit32(x) == Bit32(y)
    ensures x == y
  {
  }

  lemma Bits32Apart(x: bv32, y: bv32)
    requires Bits32(x) == Bits32(y)
    ensures x == y
  {
    hide Bit32;
    var a, b := Bit32(x), Bit32(y);
    var c, d := Bit32(Bit32(a)), Bit32(Bit32(b));
    var e, f := Bit32(Bit32(c)), Bit32(Bit32(d));
    Bit32Apart(Bit32(Bit32(e)), Bit32(Bit32(f)));
    Bit32Apart(Bit32(e), Bit32(f));
    Bit32Apart(e, f);
    Bit32Apart(Bit32(c), Bit32(d));
    Bit32Apart(c, d);
    Bit32Apart(Bit32(a), Bit32(b));
    Bit32Apart(a, b);
    Bit32Apart(x, y);
  }

  lemma XorApart(x: bv32, y: bv32, z: bv32)
    requires Xor32(x, z) == Xor32(y, z)
    ensures x == y
  {
  }

  lemma Step32Apart(x: bv32, y: bv32, b: Byte)
    requires Step32(x, b) == Step32(y, b)
    ensures x == y
  {
    hide Step32, Bits32, Xor32, In32;
    Step32IsDivision(x, b);
    Step32IsDivision(y, b);
    Bits32Apart(Xor32(x, In32(b)), Xor32(y, In32(b)));
    XorApart(x, y, In32(b));
  }

  lemma StirApart(x: bv32, y: bv32, z: bv32)
    requires Stir(x, z) == Stir(y, z)
    ensures x == y
  {
    hide Product, Plus, Low32;
    PlusApart(Product(Plus(x, Low32(z)), 134775813), Product(Plus(y, Low32(z)), 134775813), 1);
    ProductApart(Plus(x, Low32(z)), Plus(y, Low32(z)));
    PlusApart(x, y, Low32(z));
  }

  lemma UpdateApart(k: Keys, l: Keys, c: Byte)
    requires Update(k, c) == Update(l, c)
    ensures k == l
  {
    hide Step32, Stir, KeyShift;
    Step32Apart(k.k0, l.k0, c);
    StirApart(k.k1, l.k1, Update(k, c).k0);
    Step32Apart(k.k2, l.k2, KeyShift(Update(k, c).k1));
  }

  lemma {:induction false} AfterApart(k: Keys, l: Keys, plain: seq<Byte>)
    requires k != l
    ensures After(k, plain) != After(l, plain)
    decreases plain
  {
    hide Update;
    if plain != [] {
      if Update(k, plain[0]) == Update(l, plain[0]) {
        UpdateApart(k, l, plain[0]);
      }
      AfterApart(Update(k, plain[0]), Update(l, plain[0]), plain[1..]);
    }
  }

  class Cipher {
    var keys: Keys

    constructor (k: Keys)
      ensures keys == k
    {
      keys := k;
    }

    // init_keys
    method InitKeys(passwd: seq<Byte>)
      modifies this
      ensures keys == Initial(passwd)
    {
      hide Update;
      keys := Keys(305419896, 591751049, 878082192);
      for i := 0 to |passwd|
        invariant keys == Initial(passwd[..i])
      {
        AfterConcat(Initial([]), passwd[..i], [passwd[i]]);
        assert passwd[..i + 1] == passwd[..i] + [passwd[i]];
        keys := Update(keys, passwd[i]);
      }
      assert passwd[..|passwd|] == passwd;
    }

    // encrypt_buf on buf[lo..hi]
    method EncryptBuf(buf: array<Byte>, lo: nat, hi: nat)
      requires lo <= hi <= buf.Length
      modifies this, buf
      ensures keys == After(old(keys), old(buf[lo..hi]))
      ensures buf[..] == old(buf[..lo]) + Encrypt(old(keys), old(buf[lo..hi])) + old(buf[hi..])
      ensures Enciphered(old(keys), old(buf[lo..hi]), buf[lo..hi])
    {
      hide Update, KeyByte, Mix, After, Encrypt, Enciphered;
      ghost var plain := buf[lo..hi];
      EncryptedByStream(keys, plain);
      ghost var cipher := Encrypt(keys, plain);
      AfterNothing(keys);
      assert plain[..0] == [];
      for i := lo to hi
        invariant keys == After(old(keys), plain[..i - lo])
        invariant forall j :: 0 <= j < buf.Length ==> buf[j] == if lo <= j < i then cipher[j - lo] else old(buf[j])
      {
        EncryptAt(old(keys), plain, i - lo);
        AfterOne(old(keys), plain, i - lo);
        var t := KeyByte(keys);
        keys := Update(keys, buf[i]);
        buf[i] := Mix(buf[i], t);
      }
      assert plain[..hi - lo] == plain;
      assert buf[lo..hi] == cipher;
      assert buf[..lo] == old(buf[..lo]) && buf[hi..] == old(buf[hi..]);
      assert buf[..] == buf[..lo] + buf[lo..hi] + buf[hi..];
    }

    // decrypt_buf on buf[lo..hi]
    method DecryptBuf(buf: array<Byte>, lo: nat, hi: nat)
      requires lo <= hi <= buf.Length
      modifies this, buf
      ensures keys == After(old(keys), Decrypt(old(keys), old(buf[lo..hi])))
      ensures buf[..] == old(buf[..lo]) + Decrypt(old(keys), old(buf[lo..hi])) + old(buf[hi..])
      ensures Enciphered(old(keys), buf[lo..hi], old(buf[lo..hi]))
    {
      hide Update, KeyByte, Mix, After, Decrypt, Encrypt, Enciphered;
      ghost var cipher := buf[lo..hi];
      ghost var plain := Decrypt(keys, cipher);
      EncryptedByStream(keys, plain);
      EncryptInverts(keys, cipher);
      AfterNothing(keys);
      assert plain[..0] == [];
      for i := lo to hi
        invariant keys == After(old(keys), plain[..i - lo])
        invariant forall j :: 0 <= j < buf.Length ==> buf[j] == if lo <= j < i then plain[j - lo] else old(buf[j])
      {
        DecryptAt(old(keys), cipher, i - lo);
        AfterOne(old(keys), plain, i - lo);
        buf[i] := Mix(buf[i], KeyByte(keys));
        keys := Update(keys, buf[i]);
      }
      assert plain[..hi - lo] == plain;
      assert buf[lo..hi] == plain;
      assert buf[..lo] == old(buf[..lo]) && buf[hi..] == old(buf[hi..]);
      assert buf[..] == buf[..lo] + buf[lo..hi] + buf[hi..];
    }
  }

  // ---------------------------------------------------------------------------
  // Keys of the two ends
  // ---------------------------------------------------------------------------

  function Initial(passwd: seq<Byte>): Keys {
    After(Keys(305419896, 591751049, 878082192), passwd)
  }

  lemma FirstKeyByte()
    ensures KeyByte(Initial([])) == 171
  {
    AfterNothing(Keys(305419896, 591751049, 878082192));
  }

  const DASH: seq<Byte> := [0x2d]

  // binkp_outgoing: the caller's keys
  function CallerOut(passwd: seq<Byte>): Keys { Initial(passwd) }
  function CallerIn(passwd: seq<Byte>): Keys { After(Initial(DASH), passwd) }

  // phase 4 of the incoming handshake: the answerer's keys
  function AnswererIn(passwd: seq<Byte>): Keys { Initial(passwd) }
  function AnswererOut(passwd: seq<Byte>): Keys { After(Initial(DASH), passwd) }

  // With the same password each end reads what the other wrote, in pieces of any size.
  lemma EndsUnderstand(passwd: seq<Byte>, plain: seq<Byte>, cut: nat)
    requires cut <= |plain|
    ensures var sent := Encrypt(CallerOut(passwd), plain);
            var first := Decrypt(AnswererIn(passwd), sent[..cut]);
            first == plain[..cut] && Decrypt(After(AnswererIn(passwd), first), sent[cut..]) == plain[cut..]
    ensures var sent := Encrypt(AnswererOut(passwd), plain);
            var first := Decrypt(CallerIn(passwd), sent[..cut]);
            first == plain[..cut] && Decrypt(After(CallerIn(passwd), first), sent[cut..]) == plain[cut..]
  {
    hide Initial, After, Encrypt, Decrypt;
    Pieces(CallerOut(passwd), plain, cut);
    Pieces(AnswererOut(passwd), plain, cut);
  }

  lemma Pieces(k: Keys, plain: seq<Byte>, cut: nat)
    requires cut <= |plain|
    ensures var sent := Encrypt(k, plain);
            var first := Decrypt(k, sent[..cut]);
            first == plain[..cut] && Decrypt(After(k, first), sent[cut..]) == plain[cut..]
  {
    hide After, Encrypt, Decrypt;
    var sent := Encrypt(k, plain);
    var first := Decrypt(k, sent[..cut]);
    DecryptInverts(k, plain);
    DecryptConcat(k, sent[..cut], sent[cut..]);
    assert sent == sent[..cut] + sent[cut..];
    assert plain == first + Decrypt(After(k, first), sent[cut..]);
  }
}
