// The messages of a transfer as blocks (source/bforce/prot_binkp.c): M_FILE, M_GET, M_GOT, M_SKIP
// and M_EOB with their texts, which binkp_parsfinfo (prot_binkp_misc.c) reads.
module BinkpMessages {
  import opened Wrappers
  import opened Crc
  import opened Decimal
  import opened BinkpResume
  import opened BinkpFrames

  const M_FILE: Byte := 3
  const M_EOB: Byte := 5
  const M_GOT: Byte := 6
  const M_GET: Byte := 9
  const M_SKIP: Byte := 10

  const MAXNAME := 255

  type Text = seq<int>

  // The file being transferred, as messages name it
  datatype FileInfo = FileInfo(name: Text, size: int, time: int)

  predicate Is32(v: int) {
    -0x8000_0000 <= v < 0x8000_0000
  }

  // A name of one word; binkp_parsfinfo turns slashes into underscores.
  predicate GoodName(name: Text) {
    && 0 < |name| <= MAXNAME
    && forall i :: 0 <= i < |name| ==> 0 < name[i] < 256 && !IsSpace(name[i]) && name[i] != 47
  }

  predicate GoodInfo(x: FileInfo) {
    GoodName(x.name) && Is32(x.size) && Is32(x.time)
  }

  // ---------------------------------------------------------------------------
  // Texts
  // ---------------------------------------------------------------------------

  function ToBytes(t: Text): (b: seq<Byte>)
    requires forall i :: 0 <= i < |t| ==> 0 <= t[i] < 256
    ensures |b| == |t|
  {
    seq(|t|, i requires 0 <= i < |t| => ByteOf(t[i]))
  }

  function ToText(b: seq<Byte>): (t: Text)
    ensures |t| == |b|
  {
    seq(|b|, i requires 0 <= i < |b| => ValueOf(b[i]))
  }

  lemma TextBack(t: Text)
    requires forall i :: 0 <= i < |t| ==> 0 <= t[i] < 256
    ensures ToText(ToBytes(t)) == t
  {
    hide ByteOf, ValueOf;
    forall i | 0 <= i < |t| ensures ToText(ToBytes(t))[i] == t[i] {
      ValueOfByte(t[i]);
    }
  }

  // Numbers, each behind a blank
  function Numbers(vs: seq<int>): Text {
    if vs == [] then [] else [32] + (Show(vs[0]) + Numbers(vs[1..]))
  }

  // The string up to a NUL
  function Str(t: Text): Text {
    if t == [] || t[0] == 0 then [] else [t[0]] + Str(t[1..])
  }

  // %s
  function Word(t: Text): Text {
    if t == [] || IsSpace(t[0]) then [] else [t[0]] + Word(t[1..])
  }

  // n times %d
  function ScanInts(t: Text, n: nat): Option<seq<int>>
    decreases n
  {
    if n == 0 then Some([])
    else
      match ScanInt(t)
      case None => None
      case Some(v) =>
        match ScanInts(v.rest, n - 1)
        case None => None
        case Some(vs) => Some([v.value] + vs)
  }

  datatype Parsed = Parsed(name: Text, numbers: seq<int>)

  function Underscored(name: Text): Text {
    seq(|name|, i requires 0 <= i < |name| => if name[i] == 47 then 95 else name[i])
  }

  // binkp_parsfinfo with n numbers
  function ParseInfo(t: Text, n: nat): Option<Parsed> {
    var s := SkipSpace(Str(t));
    var name := Word(s);
    if name == [] || |name| > |s| then None
    else
      match ScanInts(s[|name|..], n)
      case None => None
      case Some(vs) => Some(Parsed(Underscored(name), vs))
  }

  predicate NoNul(t: Text) {
    forall i :: 0 <= i < |t| ==> 0 < t[i] < 256
  }

  lemma {:induction false} StrWhole(t: Text)
    requires NoNul(t)
    ensures Str(t) == t
  {
    if t != [] {
      StrWhole(t[1..]);
    }
  }

  lemma {:induction false} WordFirst(name: Text, rest: Text)
    requires (forall i :: 0 <= i < |name| ==> !IsSpace(name[i])) && (rest == [] || IsSpace(rest[0]))
    ensures Word(name + rest) == name
  {
    if name == [] {
      assert name + rest == rest;
    } else {
      assert (name + rest)[1..] == name[1..] + rest;
      WordFirst(name[1..], rest);
    }
  }

  lemma {:induction false} NumbersRead(vs: seq<int>)
    ensures ScanInts(Numbers(vs), |vs|) == Some(vs)
    decreases |vs|
  {
    hide Show, ScanInt;
    if vs != [] {
      var rest := Numbers(vs[1..]);
      NumbersRead(vs[1..]);
      ShowRead(vs[0], rest);
      BlankSkipped(Show(vs[0]) + rest);
      assert [vs[0]] + vs[1..] == vs;
    }
  }

  lemma BlankSkipped(t: Text)
    ensures ScanInt([32] + t) == ScanInt(t)
  {
    assert ([32] + t)[1..] == t;
  }

  lemma {:induction false} NumbersAreText(vs: seq<int>)
    requires forall i :: 0 <= i < |vs| ==> Is32(vs[i])
    ensures NoNul(Numbers(vs)) && |Numbers(vs)| <= 12 * |vs|
  {
    hide Digits;
    if vs != [] {
      NumbersAreText(vs[1..]);
      ShowIsShort(vs[0]);
    }
  }

  function InfoText(name: Text, vs: seq<int>): Text {
    name + Numbers(vs)
  }

  lemma InfoRead(name: Text, vs: seq<int>)
    requires GoodName(name) && forall i :: 0 <= i < |vs| ==> Is32(vs[i])
    ensures NoNul(InfoText(name, vs)) && |InfoText(name, vs)| <= MAXNAME + 12 * |vs|
    ensures ParseInfo(InfoText(name, vs), |vs|) == Some(Parsed(name, vs))
  {
    hide Numbers, ScanInts;
    NumbersAreText(vs);
    NumbersRead(vs);
    var t := InfoText(name, vs);
    StrWhole(t);
    assert t[0] == name[0];
    BlankFirst(vs);
    WordFirst(name, Numbers(vs));
    assert t[|name|..] == Numbers(vs);
    assert Underscored(name) == name;
  }

  lemma BlankFirst(vs: seq<int>)
    ensures Numbers(vs) == [] || Numbers(vs)[0] == 32
  {
  }

  // ---------------------------------------------------------------------------
  // Messages
  // ---------------------------------------------------------------------------

  function Command(m: Byte, t: Text): Block {
    Block(true, [m] + if NoNul(t) then ToBytes(t) else [])
  }

  function ForwardBlock(m: Forward, x: FileInfo): Block {
    match m
    case FileAt(off) => Command(M_FILE, InfoText(x.name, [x.size, x.time, off]))
    case Data(bytes) => Block(false, bytes)
    case Eob => Command(M_EOB, [])
  }

  function AnswerBlock(m: Answer, x: FileInfo): Block {
    match m
    case Get(off) => Command(M_GET, InfoText(x.name, [x.size, x.time, off]))
    case Got => Command(M_GOT, InfoText(x.name, [x.size, x.time]))
    case Skip => Command(M_SKIP, InfoText(x.name, [x.size, x.time]))
  }

  // The numbers behind the size and time, if the message is about this file
  function About(b: Block, x: FileInfo, n: nat): Option<seq<int>>
    requires b.body != []
  {
    match ParseInfo(ToText(b.body[1..]), n + 2)
    case None => None
    case Some(p) =>
      if p.name != x.name || |p.numbers| != n + 2 || p.numbers[0] != x.size || p.numbers[1] != x.time then None
      else Some(p.numbers[2..])
  }

  // What binkp_doreceiveblock takes a block for; numbers are read as 32 bits.
  function ForwardOf(b: Block, x: FileInfo): Option<Forward> {
    if !b.command then Some(Data(b.body))
    else if b.body == [] then None
    else if b.body[0] == M_EOB then Some(Eob)
    else if b.body[0] == M_FILE then
      match About(b, x, 1)
      case None => None
      case Some(vs) => if |vs| == 1 then Some(FileAt(vs[0])) else None
    else None
  }

  function AnswerOf(b: Block, x: FileInfo): Option<Answer> {
    if !b.command || b.body == [] then None
    else if b.body[0] == M_GET then
      match About(b, x, 1)
      case None => None
      case Some(vs) => if |vs| == 1 && 0 <= vs[0] < 0x8000_0000 then Some(Get(vs[0])) else None
    else if b.body[0] == M_GOT && About(b, x, 0).Some? then Some(Got)
    else if b.body[0] == M_SKIP && About(b, x, 0).Some? then Some(Skip)
    else None
  }

  lemma AboutBack(m: Byte, x: FileInfo, vs: seq<int>)
    requires GoodInfo(x) && forall i :: 0 <= i < |vs| ==> Is32(vs[i])
    ensures var b := Command(m, InfoText(x.name, [x.size, x.time] + vs));
            b.body != [] && b.body[0] == m && |b.body| <= 300 + 12 * |vs| && About(b, x, |vs|) == Some(vs)
  {
    hide InfoText, ParseInfo;
    var all := [x.size, x.time] + vs;
    var t := InfoText(x.name, all);
    InfoRead(x.name, all);
    TextBack(t);
    var b := Command(m, t);
    assert b.body[1..] == ToBytes(t);
    assert all[2..] == vs;
  }

  predicate Sayable(m: Forward) {
    (m.FileAt? ==> Is32(m.off)) && (m.Data? ==> |m.bytes| <= READ_SIZE)
  }

  // Slashes in a name become underscores, and nothing else changes.
  lemma NamesCleaned(t: Text, n: nat)
    ensures ParseInfo(t, n).Some? ==>
              var name := ParseInfo(t, n).value.name;
              var read := Word(SkipSpace(Str(t)));
              |name| == |read| && forall i :: 0 <= i < |name| ==> name[i] == if read[i] == 47 then 95 else read[i]
  {
    hide ScanInts, Word, SkipSpace, Str;
  }

  lemma ForwardRoundTrip(m: Forward, x: FileInfo)
    requires GoodInfo(x) && Sayable(m)
    ensures ForwardOf(ForwardBlock(m, x), x) == Some(m) && |ForwardBlock(m, x).body| <= READ_SIZE
  {
    hide InfoText, About;
    if m.FileAt? {
      AboutBack(M_FILE, x, [m.off]);
      assert [x.size, x.time] + [m.off] == [x.size, x.time, m.off];
    }
  }

  lemma AnswerRoundTrip(m: Answer, x: FileInfo)
    requires GoodInfo(x) && (m.Get? ==> Is32(m.off))
    ensures AnswerOf(AnswerBlock(m, x), x) == Some(m) && |AnswerBlock(m, x).body| <= READ_SIZE
  {
    hide InfoText, About;
    if m.Get? {
      AboutBack(M_GET, x, [m.off]);
      assert [x.size, x.time] + [m.off] == [x.size, x.time, m.off];
    } else {
      AboutBack(if m.Got? then M_GOT else M_SKIP, x, []);
      assert [x.size, x.time] + [] == [x.size, x.time];
    }
  }
}
