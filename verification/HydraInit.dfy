// The texts in Hydra's INIT and FINFO packets (source/bforce/prot_hydra.c): hexadecimal numbers,
// lists of option names, and the options two stations end up with.
module HydraInit {
  import opened Wrappers
  import opened Crc

  const COMMA: Byte := 0x2c

  // ---------------------------------------------------------------------------
  // Hexadecimal numbers: %08lx of sprintf and sscanf
  // ---------------------------------------------------------------------------

  function Digit(n: nat): Byte
    requires n < 16
  {
    if n < 10 then ByteOf(48 + n) else ByteOf(87 + n)
  }

  predicate IsHex(c: Byte) {
    48 <= ValueOf(c) <= 57 || 65 <= ValueOf(c) <= 70 || 97 <= ValueOf(c) <= 102
  }

  function HexValue(c: Byte): (v: nat)
    requires IsHex(c)
    ensures v < 16
  {
    var n := ValueOf(c);
    if n <= 57 then n - 48 else if n <= 70 then n - 55 else n - 87
  }

  // The last k digits of n
  function Hex(n: nat, k: nat): (t: seq<Byte>)
    ensures |t| == k
    decreases k
  {
    if k == 0 then [] else Hex(n / 16, k - 1) + [Digit(n % 16)]
  }

  // The number made of up to k leading digits, behind those that make n
  function HexNumber(t: seq<Byte>, k: nat, n: nat): nat
    decreases k
  {
    if k > 0 && t != [] && IsHex(t[0]) then HexNumber(t[1..], k - 1, 16 * n + HexValue(t[0])) else n
  }

  // What is left behind up to k digits
  function PastHex(t: seq<Byte>, k: nat): (r: seq<Byte>)
    ensures |r| <= |t|
    decreases k
  {
    if k > 0 && t != [] && IsHex(t[0]) then PastHex(t[1..], k - 1) else t
  }

  function Power(k: nat): nat {
    if k == 0 then 1 else 16 * Power(k - 1)
  }

  lemma DigitReads(n: nat)
    requires n < 16
    ensures IsHex(Digit(n)) && HexValue(Digit(n)) == n
  {
    hide ByteOf, ValueOf;
    ValueOfByte(if n < 10 then 48 + n else 87 + n);
  }

  lemma {:induction false} HexReads(n: nat, k: nat, before: nat, rest: seq<Byte>)
    requires n < Power(k)
    ensures HexNumber(Hex(n, k) + rest, k, before) == Power(k) * before + n
    ensures PastHex(Hex(n, k) + rest, k) == rest
    decreases k
  {
    hide Digit, IsHex, HexValue;
    if k == 0 {
      assert Hex(n, 0) + rest == rest;
    } else {
      var text := Hex(n / 16, k - 1) + ([Digit(n % 16)] + rest);
      assert Hex(n, k) + rest == text;
      HexReads(n / 16, k - 1, before, [Digit(n % 16)] + rest);
      DigitReads(n % 16);
      AllHex(n / 16, k - 1);
      MoreDigits(Hex(n / 16, k - 1), k - 1, before, [Digit(n % 16)] + rest);
      assert ([Digit(n % 16)] + rest)[1..] == rest;
      Regroup(before, n, Power(k - 1));
    }
  }

  lemma Regroup(before: nat, n: nat, power: nat)
    ensures 16 * (power * before + n / 16) + n % 16 == 16 * power * before + n
  {
  }

  lemma {:induction false} AllHex(n: nat, k: nat)
    ensures forall i :: 0 <= i < k ==> IsHex(Hex(n, k)[i])
    decreases k
  {
    hide Digit, IsHex;
    if k > 0 {
      AllHex(n / 16, k - 1);
      DigitReads(n % 16);
    }
  }

  // Reading k digits and then one more
  lemma {:induction false} MoreDigits(t: seq<Byte>, k: nat, n: nat, rest: seq<Byte>)
    requires |t| == k && forall i :: 0 <= i < k ==> IsHex(t[i])
    ensures HexNumber(t + rest, k + 1, n) == HexNumber(rest, 1, HexNumber(t + rest, k, n))
    ensures PastHex(t + rest, k + 1) == PastHex(rest, 1)
    decreases k
  {
    hide IsHex, HexValue;
    if k == 0 {
      assert t + rest == rest;
    } else {
      assert (t + rest)[1..] == t[1..] + rest;
      MoreDigits(t[1..], k - 1, 16 * n + HexValue(t[0]), rest);
    }
  }

  // ---------------------------------------------------------------------------
  // Lists of option names
  // ---------------------------------------------------------------------------

  // The options, by their place in hydraflags
  type Flags = set<nat>

  const XON := 0
  const TLN := 1
  const CTL := 2
  const HIC := 3
  const HI8 := 4
  const BRK := 5
  const ASC := 6
  const UUE := 7
  const C32 := 8
  const DEV := 9
  const FPT := 10
  const COUNT := 11

  // HYDRA_CANOPT, HYDRA_DEFOPT and HYDRA_NECOPT
  const CAN: Flags := {XON, TLN, CTL, HIC, HI8, ASC, UUE, C32}
  const DEF: Flags := {C32}
  const NEC: Flags := {XON, TLN, CTL, HIC, HI8, BRK}

  function FlagName(k: nat): (name: seq<Byte>)
    requires k < COUNT
    ensures |name| == 3 && COMMA !in name && 0 !in name
  {
    if k == XON then [0x58, 0x4f, 0x4e]
    else if k == TLN then [0x54, 0x4c, 0x4e]
    else if k == CTL then [0x43, 0x54, 0x4c]
    else if k == HIC then [0x48, 0x49, 0x43]
    else if k == HI8 then [0x48, 0x49, 0x38]
    else if k == BRK then [0x42, 0x52, 0x4b]
    else if k == ASC then [0x41, 0x53, 0x43]
    else if k == UUE then [0x55, 0x55, 0x45]
    else if k == C32 then [0x43, 0x33, 0x32]
    else if k == DEV then [0x44, 0x45, 0x56]
    else [0x46, 0x50, 0x54]
  }

  lemma NamesDiffer(j: nat, k: nat)
    requires j < COUNT && k < COUNT && FlagName(j) == FlagName(k)
    ensures j == k
  {
    assert forall i :: 0 <= i < 3 ==> FlagName(j)[i] == FlagName(k)[i];
  }

  function Letter(c: char): Byte
    requires c < 128 as char
  {
    c as Byte
  }

  function Letters(a: char, b: char, c: char): seq<Byte>
    requires a < 128 as char && b < 128 as char && c < 128 as char
  {
    [Letter(a), Letter(b), Letter(c)]
  }

  lemma LettersAre()
    ensures Letter('2') == 0x32 && Letter('3') == 0x33 && Letter('8') == 0x38 && Letter('A') == 0x41
    ensures Letter('B') == 0x42 && Letter('C') == 0x43 && Letter('D') == 0x44 && Letter('E') == 0x45
    ensures Letter('F') == 0x46 && Letter('H') == 0x48 && Letter('I') == 0x49 && Letter('K') == 0x4b
  {
  }

  lemma MoreLetters()
    ensures Letter('L') == 0x4c && Letter('N') == 0x4e && Letter('O') == 0x4f && Letter('P') == 0x50
    ensures Letter('R') == 0x52 && Letter('S') == 0x53 && Letter('T') == 0x54 && Letter('U') == 0x55
    ensures Letter('V') == 0x56 && Letter('X') == 0x58
  {
  }

  // The names, in order
  lemma NamesSpelt()
    ensures FlagName(0) == Letters('X', 'O', 'N') && FlagName(1) == Letters('T', 'L', 'N')
    ensures FlagName(2) == Letters('C', 'T', 'L') && FlagName(3) == Letters('H', 'I', 'C')
    ensures FlagName(4) == Letters('H', 'I', '8') && FlagName(5) == Letters('B', 'R', 'K')
    ensures FlagName(6) == Letters('A', 'S', 'C') && FlagName(7) == Letters('U', 'U', 'E')
    ensures FlagName(8) == Letters('C', '3', '2') && FlagName(9) == Letters('D', 'E', 'V')
    ensures FlagName(10) == Letters('F', 'P', 'T')
  {
    hide Letter;
    LettersAre();
    MoreLetters();
  }

  function NamesFrom(flags: Flags, k: nat): (names: seq<seq<Byte>>)
    ensures forall i :: 0 <= i < |names| ==> names[i] != [] && COMMA !in names[i]
    ensures k <= COUNT ==> |names| <= COUNT - k
    decreases COUNT - k
  {
    if k >= COUNT then [] else (if k in flags then [FlagName(k)] else []) + NamesFrom(flags, k + 1)
  }

  function Joined(names: seq<seq<Byte>>): seq<Byte> {
    if names == [] then [] else if |names| == 1 then names[0] else names[0] + ([COMMA] + Joined(names[1..]))
  }

  // hydra_putflags
  function PutFlags(flags: Flags): seq<Byte> {
    Joined(NamesFrom(flags, 0))
  }

  // strtok
  function Token(t: seq<Byte>): (k: seq<Byte>)
    ensures |k| <= |t| && (t != [] && t[0] != COMMA ==> k != [])
  {
    if t == [] || t[0] == COMMA then [] else [t[0]] + Token(t[1..])
  }

  function Tokens(t: seq<Byte>): seq<seq<Byte>>
    decreases |t|
  {
    if t == [] then [] else if t[0] == COMMA then Tokens(t[1..]) else [Token(t)] + Tokens(t[|Token(t)|..])
  }

  // hydra_getflags
  function GetFlags(t: seq<Byte>): Flags {
    set k: nat | k < COUNT && FlagName(k) in Tokens(t)
  }

  lemma {:induction false} TokenFirst(name: seq<Byte>, rest: seq<Byte>)
    requires COMMA !in name && (rest == [] || rest[0] == COMMA)
    ensures Token(name + rest) == name
  {
    if name == [] {
      assert name + rest == rest;
    } else {
      assert (name + rest)[1..] == name[1..] + rest;
      TokenFirst(name[1..], rest);
    }
  }

  lemma {:induction false} TokensJoined(names: seq<seq<Byte>>)
    requires forall i :: 0 <= i < |names| ==> names[i] != [] && COMMA !in names[i]
    ensures Tokens(Joined(names)) == names
    decreases |names|
  {
    hide Token;
    if |names| == 1 {
      assert names[0] + [] == names[0];
      TokenFirst(names[0], []);
      assert names[0][|names[0]|..] == [];
    } else if |names| > 1 {
      var rest := [COMMA] + Joined(names[1..]);
      TokensJoined(names[1..]);
      TokenFirst(names[0], rest);
      assert (names[0] + rest)[|names[0]|..] == rest;
      assert rest[1..] == Joined(names[1..]);
      assert (names[0] + rest)[0] == names[0][0];
    }
  }

  lemma {:induction false} NamesFromHave(flags: Flags, j: nat, k: nat)
    requires k < COUNT
    ensures FlagName(k) in NamesFrom(flags, j) <==> j <= k && k in flags
    decreases COUNT - j
  {
    hide FlagName;
    if j < COUNT {
      NamesFromHave(flags, j + 1, k);
      if FlagName(j) == FlagName(k) {
        NamesDiffer(j, k);
      }
    }
  }

  // Every set of options comes back from its list of names.
  lemma FlagsRoundTrip(flags: Flags)
    requires forall k :: k in flags ==> k < COUNT
    ensures GetFlags(PutFlags(flags)) == flags
  {
    hide FlagName, Tokens, Joined;
    TokensJoined(NamesFrom(flags, 0));
    forall k: nat | k < COUNT ensures k in GetFlags(PutFlags(flags)) <==> k in flags {
      NamesFromHave(flags, 0, k);
    }
  }

  lemma {:induction false} JoinedSize(names: seq<seq<Byte>>)
    requires forall i :: 0 <= i < |names| ==> |names[i]| == 3 && 0 !in names[i]
    ensures |Joined(names)| <= 4 * |names| && 0 !in Joined(names)
    decreases |names|
  {
    if |names| > 1 {
      JoinedSize(names[1..]);
    }
  }

  lemma {:induction false} NamesFromSize(flags: Flags, k: nat)
    ensures forall i :: 0 <= i < |NamesFrom(flags, k)| ==> |NamesFrom(flags, k)[i]| == 3 && 0 !in NamesFrom(flags, k)[i]
    decreases COUNT - k
  {
    hide FlagName;
    if k < COUNT {
      NamesFromSize(flags, k + 1);
    }
  }

  lemma FlagsSize(flags: Flags)
    ensures |PutFlags(flags)| <= 44 && 0 !in PutFlags(flags)
  {
    hide Joined;
    NamesFromSize(flags, 0);
    JoinedSize(NamesFrom(flags, 0));
  }

  // ---------------------------------------------------------------------------
  // INIT packets
  // ---------------------------------------------------------------------------

  // Strings one behind the other, each closed by a NUL
  function Str(b: seq<Byte>): (s: seq<Byte>)
    ensures |s| <= |b|
  {
    if b == [] || b[0] == 0 then [] else [b[0]] + Str(b[1..])
  }

  // What follows the first of them; nothing if there is no further one
  function PastStr(b: seq<Byte>): (r: seq<Byte>)
    ensures |r| <= |b|
  {
    if |Str(b)| + 1 <= |b| then b[|Str(b)| + 1..] else []
  }

  lemma {:induction false} StrFirst(s: seq<Byte>, rest: seq<Byte>)
    requires 0 !in s
    ensures Str(s + ([0] + rest)) == s && PastStr(s + ([0] + rest)) == rest
  {
    var b := s + ([0] + rest);
    if s == [] {
      assert b == [0] + rest;
    } else {
      assert b[1..] == s[1..] + ([0] + rest);
      StrFirst(s[1..], rest);
      assert [s[0]] + s[1..] == s;
      assert b[|s| + 1..] == rest;
    }
  }

  datatype Offer = Offer(can: Flags, desired: Flags, txwindow: nat, rxwindow: nat)

  const LIMIT := 0x8000_0000

  // Revision, application, what we can, what we want, the windows, and an empty prefix
  function InitText(app: seq<Byte>, i: Offer): seq<Byte> {
    Hex(0, 8) + (app + ([0] + (PutFlags(i.can) + ([0] + (PutFlags(i.desired) + ([0] +
      (Hex(i.txwindow, 8) + Hex(i.rxwindow, 8) + ([0] + [0]))))))))
  }

  // A long of 32 bits; negative windows are none.
  function Window(n: nat): nat {
    var v := n % (2 * LIMIT);
    if v < LIMIT then v else 0
  }

  // hydra_parse_init up to the options: every string but the last has to begin within the packet.
  function ParseInit(b: seq<Byte>): Option<Offer> {
    if |b| <= 8 || b[|b| - 1] != 0 then None
    else
      var app := b[8..];
      var can := PastStr(app);
      var desired := PastStr(can);
      var window := PastStr(desired);
      if can == [] || desired == [] || window == [] then None
      else
        var w := Str(window);
        Some(Offer(GetFlags(Str(can)), GetFlags(Str(desired)), Window(HexNumber(w, 8, 0)),
            Window(HexNumber(PastHex(w, 8), 8, 0))))
  }

  lemma InitRoundTrip(app: seq<Byte>, i: Offer)
    requires 0 !in app && i.txwindow < LIMIT && i.rxwindow < LIMIT
    requires forall k :: k in i.can || k in i.desired ==> k < COUNT
    ensures ParseInit(InitText(app, i)) == Some(i)
    ensures 8 < |InitText(app, i)| <= |app| + 120
  {
    hide Hex, HexNumber, PastHex, Str, PastStr, PutFlags, GetFlags;
    var windows := Hex(i.txwindow, 8) + Hex(i.rxwindow, 8);
    var d := windows + ([0] + [0]);
    var c := PutFlags(i.desired) + ([0] + d);
    var a := PutFlags(i.can) + ([0] + c);
    var b := InitText(app, i);
    assert b[8..] == app + ([0] + a);
    FlagsSize(i.can);
    FlagsSize(i.desired);
    FlagsRoundTrip(i.can);
    FlagsRoundTrip(i.desired);
    HexHasNoNul(i.txwindow, 8);
    HexHasNoNul(i.rxwindow, 8);
    StrFirst(app, a);
    StrFirst(PutFlags(i.can), c);
    StrFirst(PutFlags(i.desired), d);
    StrFirst(windows, [0]);
    assert Power(8) == 0x1_0000_0000 by { EightDigits(); }
    HexReads(i.txwindow, 8, 0, Hex(i.rxwindow, 8));
    HexReads(i.rxwindow, 8, 0, []);
    assert Hex(i.rxwindow, 8) + [] == Hex(i.rxwindow, 8);
  }

  lemma EightDigits()
    ensures Power(8) == 0x1_0000_0000
  {
    assert Power(4) == 65536;
  }

  lemma HexHasNoNul(n: nat, k: nat)
    ensures 0 !in Hex(n, k)
  {
    hide Hex, IsHex;
    AllHex(n, k);
    assert !IsHex(0) by { NulIsNoDigit(); }
  }

  lemma NulIsNoDigit()
    ensures !IsHex(0)
  {
    EndBytes();
  }

  // ---------------------------------------------------------------------------
  // The options agreed on
  // ---------------------------------------------------------------------------

  // rxoptions, and then txoptions, of a station that has taken the other's INIT
  function Negotiated(options: Flags, theirs: Offer): Flags {
    (options + theirs.desired) * theirs.can * CAN
  }

  // The options below k as a number
  function Number(flags: Flags, k: nat): nat {
    if k == 0 then 0 else Number(flags, k - 1) + if k - 1 in flags then Bit(k - 1) else 0
  }

  function Bit(k: nat): nat {
    if k == 0 then 1 else 2 * Bit(k - 1)
  }

  lemma BitIs(k: nat)
    requires k < COUNT
    ensures Bit(k) == [1, 2, 4, 8, 16, 32, 64, 128, 256, 512, 1024][k]
  {
    assert Bit(3) == 8;
    assert Bit(6) == 64;
    assert Bit(9) == 512;
  }

  // Vital options that have been lost make the link useless.
  predicate Compatible(options: Flags, theirs: Offer) {
    Number(Negotiated(options, theirs), COUNT) >= Number(options * NEC, COUNT)
  }

  // An option is agreed on if this station uses it or the other one wants it, and both can.
  lemma NegotiatedExactly(options: Flags, theirs: Offer, k: nat)
    ensures k in Negotiated(options, theirs) <==>
              (k in options || k in theirs.desired) && k in theirs.can && k in {0, 1, 2, 3, 4, 6, 7, 8}
  {
  }

  // With the options of this program no offer is refused.
  lemma NeverRefused(theirs: Offer)
    ensures Compatible(DEF * CAN, theirs)
  {
    assert DEF * CAN * NEC == {};
    NothingCounts();
  }

  // Two stations running this code end up with the CRC-32 and nothing else.
  lemma SameOptions(theirs: Offer)
    requires theirs.can == CAN && theirs.desired == DEF
    ensures Negotiated(DEF * CAN, theirs) == {C32} && Compatible(DEF * CAN, theirs)
  {
    assert DEF * CAN * NEC == {};
    assert forall k: nat :: k <= COUNT ==> Number({}, k) == 0 by { NothingCounts(); }
  }

  lemma {:induction false} NothingCounts()
    ensures forall k: nat :: k <= COUNT ==> Number({}, k) == 0
  {
    var k: nat := 0;
    while k < COUNT
      invariant k <= COUNT && forall j: nat :: j <= k ==> Number({}, j) == 0
    {
      k := k + 1;
    }
  }
}
