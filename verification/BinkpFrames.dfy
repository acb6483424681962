// Block framing of binkp_loop (source/bforce/prot_binkp.c): blocks cut out of a byte
// stream that arrives in reads of any size, possibly encrypted, and blocks written to it
// with partial writes.  Within one batch, as the restart of a batch resets want_read only.
module BinkpFrames {
  import opened Crc
  import opened BinkpCrypt

  const HEADER := 2
  const MAXBLOCK := 32768
  const LONGEST := 0x7fff

  datatype Block = Block(command: bool, body: seq<Byte>)

  predicate Fits(b: Block) {
    |b.body| <= LONGEST
  }

  predicate AllFit(bs: seq<Block>) {
    forall i :: 0 <= i < |bs| ==> Fits(bs[i])
  }

  function Marked(command: bool, h: Byte): Byte {
    if command then h | 0x80 else h & 0x7f
  }

  function Unmarked(h: Byte): Byte { h & 0x7f }

  predicate IsCommand(h: Byte) { h & 0x80 != 0 }

  // The two bytes in front of a block of n bytes.
  function High(command: bool, n: nat): Byte
    requires n <= LONGEST
  {
    Marked(command, ByteOf(n / 256))
  }

  function Low(n: nat): Byte {
    ByteOf(n % 256)
  }

  function BodyLength(h: Byte, l: Byte): nat {
    ValueOf(Unmarked(h)) * 256 + ValueOf(l)
  }

  lemma SmallByte(b: Byte)
    requires ValueOf(b) < 128
    ensures b < 0x80
  {
  }

  lemma MarkedReads(command: bool, h: Byte)
    requires h < 0x80
    ensures Unmarked(Marked(command, h)) == h && IsCommand(Marked(command, h)) == command
  {
  }

  lemma UnmarkedSmall(h: Byte)
    ensures ValueOf(Unmarked(h)) < 128
  {
    assert Unmarked(h) < 0x80;
  }

  lemma BodyLengthBound(h: Byte, l: Byte)
    ensures BodyLength(h, l) <= LONGEST
  {
    hide ValueOf, Unmarked;
    UnmarkedSmall(h);
  }

  lemma HeaderReads(command: bool, n: nat)
    requires n <= LONGEST
    ensures IsCommand(High(command, n)) == command
    ensures BodyLength(High(command, n), Low(n)) == n
  {
    hide ByteOf, ValueOf, Marked, Unmarked, IsCommand;
    ValueOfByte(n / 256);
    ValueOfByte(n % 256);
    SmallByte(ByteOf(n / 256));
    MarkedReads(command, ByteOf(n / 256));
  }

  function Frame(b: Block): (t: seq<Byte>)
    requires Fits(b)
    ensures |t| == HEADER + |b.body|
  {
    [High(b.command, |b.body|), Low(|b.body|)] + b.body
  }

  function Wire(bs: seq<Block>): seq<Byte>
    requires AllFit(bs)
  {
    if bs == [] then [] else Frame(bs[0]) + Wire(bs[1..])
  }

  lemma {:induction false} WireAppend(bs: seq<Block>, b: Block)
    requires AllFit(bs) && Fits(b)
    ensures AllFit(bs + [b]) && Wire(bs + [b]) == Wire(bs) + Frame(b)
  {
    hide Frame;
    if bs == [] {
      assert bs + [b] == [b];
    } else {
      assert (bs + [b])[1..] == bs[1..] + [b];
      WireAppend(bs[1..], b);
    }
  }

  // Where a frame starts, the bytes determine it.
  lemma FrameUnique(a: Block, b: Block, s: seq<Byte>)
    requires Fits(a) && Fits(b) && Frame(a) <= s && Frame(b) <= s
    ensures a == b
  {
    hide High, Low, IsCommand, BodyLength;
    HeaderReads(a.command, |a.body|);
    HeaderReads(b.command, |b.body|);
    assert Frame(a)[0] == s[0] == Frame(b)[0] && Frame(a)[1] == s[1] == Frame(b)[1];
    assert a.body == Frame(a)[2..] == s[2..2 + |a.body|] == Frame(b)[2..] == b.body;
  }

  // Blocks can be read off a stream in one way only.
  lemma {:induction false} WireUnique(a: seq<Block>, b: seq<Block>, s: seq<Byte>)
    requires AllFit(a) && AllFit(b) && Wire(a) <= s && Wire(b) <= s && |Wire(a)| <= |Wire(b)|
    ensures a <= b
    decreases |a|
  {
    hide Frame;
    if a != [] && b != [] {
      FrameUnique(a[0], b[0], s);
      var n := |Frame(a[0])|;
      assert Wire(a)[n..] == Wire(a[1..]) && Wire(b)[n..] == Wire(b[1..]);
      WireUnique(a[1..], b[1..], s[n..]);
    }
  }

  // ---------------------------------------------------------------------------
  // Reading
  // ---------------------------------------------------------------------------

  // What binkp_doreceiveblock answers.
  datatype Reply = Keep | Accepted | Enough

  // The plain text of what came off the line.
  function Plain(crypt: bool, k: Keys, line: seq<Byte>): (p: seq<Byte>)
    ensures |p| == |line|
  {
    if crypt then Decrypt(k, line) else line
  }

  function Line(crypt: bool, k: Keys, plain: seq<Byte>): seq<Byte> {
    if crypt then Encrypt(k, plain) else plain
  }

  class BinkpReader {
    const readbuf: array<Byte>
    const cipher: Cipher
    const crypt: bool              // transfer mode with the CRYPT option
    ghost const start: Keys        // the keys the loop starts with
    var readPos: nat
    var wantRead: nat
    var accepted: seq<Block>       // blocks accepted by the upper level, in order
    ghost var enough: bool         // the upper level needs no more blocks in this mode
    ghost var taken: seq<Byte>     // everything tty_read has delivered

    ghost predicate Valid()
      reads this, readbuf, cipher
    {
      && readbuf.Length == HEADER + MAXBLOCK + 1
      && readPos + wantRead <= HEADER + LONGEST
      && AllFit(accepted)
      && Plain(crypt, start, taken) == Wire(accepted) + readbuf[..readPos]
      && (crypt ==> cipher.keys == After(start, Plain(crypt, start, taken)))
      && (if enough then readPos == wantRead == 0
          else if readPos < HEADER then wantRead == HEADER - readPos
          else readPos + wantRead == HEADER + BodyLength(readbuf[0], readbuf[1]))
    }

    constructor (c: Cipher, crypt: bool)
      ensures Valid() && fresh(readbuf) && cipher == c && this.crypt == crypt && start == c.keys
      ensures accepted == [] && taken == [] && !enough
    {
      readbuf := new Byte[HEADER + MAXBLOCK + 1](_ => 0);
      cipher, this.crypt, start := c, crypt, c.keys;
      readPos, wantRead, accepted, enough, taken := 0, HEADER, [], false, [];
    }

    // The canread branch: tty_read has stored a chunk of any size it was allowed.
    method Read(chunk: seq<Byte>)
      requires Valid() && 0 < |chunk| <= wantRead
      modifies this`readPos, this`wantRead, this`taken, readbuf, cipher
      ensures Valid() && taken == old(taken) + chunk
    {
      hide Wire, Plain, After, ValueOf, Unmarked;
      Receive(chunk);
      taken := taken + chunk;
      wantRead := wantRead - |chunk|;
      readPos := readPos + |chunk|;
      if readPos == HEADER {
        BodyLengthBound(readbuf[0], readbuf[1]);
        wantRead := BodyLength(readbuf[0], readbuf[1]);
      }
    }

    method Receive(chunk: seq<Byte>)
      requires Valid() && 0 < |chunk| <= wantRead
      modifies readbuf, cipher
      ensures Plain(crypt, start, taken + chunk) == Wire(accepted) + readbuf[..readPos + |chunk|]
      ensures crypt ==> cipher.keys == After(start, Plain(crypt, start, taken + chunk))
      ensures readbuf[..readPos] == old(readbuf[..readPos])
    {
      hide Wire, Plain, Encrypt, Decrypt, After, BodyLength;
      Advance(crypt, start, taken, chunk);
      Place(chunk);
      assert readbuf[..readPos] == readbuf[..readPos + |chunk|][..readPos];
    }

    // The chunk goes behind what is there, decrypted in place if need be.
    method Place(chunk: seq<Byte>)
      requires readPos + |chunk| <= readbuf.Length
      modifies readbuf, cipher
      ensures var text := if crypt then Decrypt(old(cipher.keys), chunk) else chunk;
              && readbuf[..readPos + |chunk|] == old(readbuf[..readPos]) + text
              && (crypt ==> cipher.keys == After(old(cipher.keys), text))
    {
      hide Encrypt, Decrypt, After;
      Store(chunk);
      if crypt {
        cipher.DecryptBuf(readbuf, readPos, readPos + |chunk|);
      }
    }

    method Store(chunk: seq<Byte>)
      requires readPos + |chunk| <= readbuf.Length
      modifies readbuf
      ensures readbuf[..] == old(readbuf[..readPos]) + chunk + old(readbuf[readPos + |chunk|..])
    {
      for i := 0 to |chunk|
        invariant forall j :: 0 <= j < readbuf.Length ==>
                    readbuf[j] == if readPos <= j < readPos + i then chunk[j - readPos] else old(readbuf[j])
      {
        readbuf[readPos + i] := chunk[i];
      }
    }

    // A batch restarts: want_read is set, but not read_pos.  The frames are lost, and the block
    // at hand will not have the length its header gives, unless two bytes were wanted anyway.
    method Restart()
      requires Valid() && !enough
      modifies this`wantRead
      ensures wantRead == HEADER
      ensures Valid() <==> old(wantRead) == HEADER
      ensures old(wantRead) != HEADER && readPos >= HEADER ==>
                readPos + wantRead != HEADER + BodyLength(readbuf[0], readbuf[1])
      ensures readPos == 0 ==> Valid()
    {
      hide Wire, Plain, After, BodyLength;
      wantRead := HEADER;
    }

    // The block that is complete
    method Peek() returns (block: Block)
      requires Valid() && wantRead == 0 && readPos > 0
      ensures Fits(block) && Frame(block) == readbuf[..readPos]
    {
      hide Wire, Plain, After, Frame, BodyLength, IsCommand;
      block := Block(IsCommand(readbuf[0]), readbuf[HEADER..readPos]);
      BodyLengthBound(readbuf[0], readbuf[1]);
      FrameOf(readbuf[..readPos]);
    }

    // A complete block is offered in every turn until it is accepted.
    method Offer(answer: Reply) returns (ghost block: Block)
      requires Valid() && wantRead == 0 && readPos > 0
      modifies this`readPos, this`wantRead, this`accepted, this`enough
      ensures Valid()
      ensures Fits(block) && Frame(block) == old(readbuf[..readPos])
      ensures accepted == if answer == Keep then old(accepted) else old(accepted) + [block]
      ensures enough == (old(enough) || answer == Enough)
      ensures answer == Keep ==> readPos == old(readPos) && wantRead == 0
      ensures taken == old(taken)
    {
      hide Wire, Encrypt, Decrypt, After, Frame, BodyLength, IsCommand;
      var whole := Block(IsCommand(readbuf[0]), readbuf[HEADER..readPos]);
      block := whole;
      BodyLengthBound(readbuf[0], readbuf[1]);
      FrameOf(readbuf[..readPos]);
      match answer {
        case Keep =>
        case Accepted =>
          WireAppend(accepted, block);
          accepted := accepted + [whole];
          readPos, wantRead := 0, HEADER;
        case Enough =>
          WireAppend(accepted, block);
          accepted := accepted + [whole];
          readPos, wantRead, enough := 0, 0, true;
      }
    }
  }

  lemma Advance(crypt: bool, k: Keys, taken: seq<Byte>, chunk: seq<Byte>)
    ensures var text := if crypt then Decrypt(After(k, Plain(crypt, k, taken)), chunk) else chunk;
            && Plain(crypt, k, taken + chunk) == Plain(crypt, k, taken) + text
            && After(k, Plain(crypt, k, taken + chunk)) == After(After(k, Plain(crypt, k, taken)), text)
  {
    hide Decrypt, After;
    var text := if crypt then Decrypt(After(k, Plain(crypt, k, taken)), chunk) else chunk;
    if crypt {
      DecryptConcat(k, taken, chunk);
    }
    AfterConcat(k, Plain(crypt, k, taken), text);
  }

  // Bytes whose header gives their number are a frame.
  lemma FrameOf(t: seq<Byte>)
    requires |t| >= HEADER && |t| == HEADER + BodyLength(t[0], t[1])
    ensures var b := Block(IsCommand(t[0]), t[HEADER..]); Fits(b) && Frame(b) == t
  {
    hide BodyLength, IsCommand, High, Low;
    BodyLengthBound(t[0], t[1]);
    HeaderBack(t[0], t[1]);
    assert t == [t[0], t[1]] + t[HEADER..];
  }

  lemma HeaderBack(h: Byte, l: Byte)
    ensures BodyLength(h, l) <= LONGEST
    ensures High(IsCommand(h), BodyLength(h, l)) == h && Low(BodyLength(h, l)) == l
  {
    hide ValueOf, Unmarked, ByteOf, Marked, IsCommand;
    UnmarkedSmall(h);
    ByteOfValue(Unmarked(h));
    ByteOfValue(l);
    MarkBack(h);
    var n := BodyLength(h, l);
    assert n / 256 == ValueOf(Unmarked(h)) && n % 256 == ValueOf(l);
  }

  lemma MarkBack(h: Byte)
    ensures Marked(IsCommand(h), Unmarked(h)) == h
  {
  }

  // ---------------------------------------------------------------------------
  // Writing
  // ---------------------------------------------------------------------------

  class BinkpWriter {
    const writebuf: array<Byte>
    const cipher: Cipher
    const crypt: bool
    ghost const start: Keys
    var writePos: nat
    var haveToWrite: nat
    ghost var blocks: seq<Block>   // blocks taken from the upper level, in order
    ghost var wire: seq<Byte>      // everything tty_write has accepted

    ghost predicate Valid()
      reads this, writebuf, cipher
    {
      && writebuf.Length == HEADER + MAXBLOCK + 1
      && writePos + haveToWrite <= HEADER + LONGEST
      && AllFit(blocks)
      && wire + writebuf[writePos..writePos + haveToWrite] == Line(crypt, start, Wire(blocks))
      && (crypt ==> cipher.keys == After(start, Wire(blocks)))
    }

    constructor (c: Cipher, crypt: bool)
      ensures Valid() && fresh(writebuf) && cipher == c && this.crypt == crypt && start == c.keys
      ensures blocks == [] && wire == []
    {
      writebuf := new Byte[HEADER + MAXBLOCK + 1](_ => 0);
      cipher, this.crypt, start := c, crypt, c.keys;
      writePos, haveToWrite, blocks, wire := 0, 0, [], [];
    }

    // A block from binkp_getforsend goes behind its header, and all of it is encrypted.
    method Fill(b: Block)
      requires Valid() && haveToWrite == 0 && Fits(b)
      modifies this`writePos, this`haveToWrite, this`blocks, writebuf, cipher
      ensures Valid() && blocks == old(blocks) + [b] && haveToWrite == HEADER + |b.body| && wire == old(wire)
    {
      hide Wire, Line, Encrypt, After, High, Low;
      ghost var sent := Wire(blocks);
      assert wire + [] == wire;
      Put(b);
      if crypt {
        cipher.EncryptBuf(writebuf, 0, HEADER + |b.body|);
      }
      Extend(crypt, start, sent, Frame(b));
      WireAppend(blocks, b);
      blocks := blocks + [b];
      writePos, haveToWrite := 0, HEADER + |b.body|;
      assert writebuf[writePos..writePos + haveToWrite] == writebuf[..haveToWrite];
    }

    method Put(b: Block)
      requires Fits(b) && writebuf.Length == HEADER + MAXBLOCK + 1
      modifies writebuf
      ensures writebuf[..HEADER + |b.body|] == Frame(b)
    {
      hide High, Low;
      for i := 0 to |b.body|
        invariant writebuf[HEADER..HEADER + i] == b.body[..i]
      {
        writebuf[HEADER + i] := b.body[i];
      }
      writebuf[0] := High(b.command, |b.body|);
      writebuf[1] := Low(|b.body|);
    }

    // The canwrite branch: tty_write has accepted n bytes.
    method Write(n: nat)
      requires Valid() && 0 < n <= haveToWrite
      modifies this`writePos, this`haveToWrite, this`wire
      ensures Valid() && old(wire) <= wire && |wire| == old(|wire|) + n
    {
      hide Wire, Line, After;
      assert writebuf[writePos..writePos + haveToWrite]
          == writebuf[writePos..writePos + n] + writebuf[writePos + n..writePos + haveToWrite];
      wire := wire + writebuf[writePos..writePos + n];
      writePos := writePos + n;
      haveToWrite := haveToWrite - n;
    }
  }

  lemma Extend(crypt: bool, k: Keys, plain: seq<Byte>, more: seq<Byte>)
    ensures Line(crypt, k, plain + more)
         == Line(crypt, k, plain) + if crypt then Encrypt(After(k, plain), more) else more
    ensures After(k, plain + more) == After(After(k, plain), more)
  {
    hide Encrypt, After;
    AfterConcat(k, plain, more);
    if crypt {
      EncryptConcat(k, plain, more);
    }
  }

  // ---------------------------------------------------------------------------
  // Both ends
  // ---------------------------------------------------------------------------

  // No complete block is waiting for the upper level.
  ghost predicate Drained(r: BinkpReader)
    reads r
  {
    r.readPos > 0 ==> r.wantRead > 0
  }

  // Two readers that got the same bytes in different pieces have accepted the same blocks.
  lemma ChunkingIrrelevant(r: BinkpReader, q: BinkpReader)
    requires r.Valid() && q.Valid() && r.start == q.start && r.crypt == q.crypt && r.taken == q.taken
    requires Drained(r) && Drained(q)
    ensures r.accepted == q.accepted && r.readbuf[..r.readPos] == q.readbuf[..q.readPos]
  {
    hide Wire, Plain, After, BodyLength;
    var s := Plain(r.crypt, r.start, r.taken);
    NotBehind(r, q.accepted, s);
    NotBehind(q, r.accepted, s);
    assert r.accepted == q.accepted;
    assert r.readbuf[..r.readPos] == s[|Wire(r.accepted)|..] == q.readbuf[..q.readPos];
  }

  predicate Incomplete(part: seq<Byte>) {
    |part| < HEADER || |part| < HEADER + BodyLength(part[0], part[1])
  }

  // A drained reader has accepted every block that is complete in what it was given.
  lemma NotBehind(r: BinkpReader, bs: seq<Block>, s: seq<Byte>)
    requires r.Valid() && Drained(r) && s == Plain(r.crypt, r.start, r.taken)
    requires AllFit(bs) && Wire(bs) <= s
    ensures bs <= r.accepted
  {
    hide Wire, Plain, After, BodyLength;
    var part := r.readbuf[..r.readPos];
    if r.enough || |Wire(bs)| <= |Wire(r.accepted)| {
      assert r.enough ==> part == [];
      WireUnique(bs, r.accepted, s);
    } else {
      WireUnique(r.accepted, bs, s);
      assert Incomplete(part);
      NothingMissed(r.accepted, part, bs);
    }
  }

  lemma NothingMissed(done: seq<Block>, part: seq<Byte>, bs: seq<Block>)
    requires AllFit(bs) && done <= bs && Incomplete(part)
    requires AllFit(done) && Wire(bs) <= Wire(done) + part
    ensures done == bs
  {
    hide Wire, Frame, BodyLength;
    var n := |done|;
    if n < |bs| {
      WireSplit(bs, n);
      assert done == bs[..n];
      assert (Wire(done) + part)[|Wire(done)|..] == part;
      assert Wire(bs)[|Wire(done)|..] == Wire(bs[n..]);
      assert Frame(bs[n]) <= part;
      FirstFrame(bs[n], part);
    }
  }

  lemma {:induction false} WireSplit(bs: seq<Block>, n: nat)
    requires AllFit(bs) && n <= |bs|
    ensures Wire(bs) == Wire(bs[..n]) + Wire(bs[n..])
    ensures n < |bs| ==> Wire(bs[n..]) == Frame(bs[n]) + Wire(bs[n + 1..])
  {
    hide Frame;
    if n == 0 {
    } else {
      assert bs[..n][1..] == bs[1..][..n - 1];
      assert bs[n..] == bs[1..][n - 1..];
      assert n < |bs| ==> bs[n + 1..] == bs[1..][n..];
      WireSplit(bs[1..], n - 1);
    }
  }

  lemma FirstFrame(b: Block, s: seq<Byte>)
    requires Fits(b) && Frame(b) <= s
    ensures |s| >= HEADER && BodyLength(s[0], s[1]) == |b.body|
  {
    hide High, Low, BodyLength;
    HeaderReads(b.command, |b.body|);
    assert Frame(b)[0] == s[0] && Frame(b)[1] == s[1];
  }

  // What the upper level gets is what the other end's upper level gave, in order and never
  // more; with the whole line read and nothing kept back, it is all of it.
  lemma BlocksArrive(w: BinkpWriter, r: BinkpReader)
    requires w.Valid() && r.Valid() && w.start == r.start && w.crypt == r.crypt
    requires r.taken <= w.wire
    ensures r.accepted <= w.blocks
    ensures r.taken == w.wire && w.haveToWrite == 0 && Drained(r) ==> r.accepted == w.blocks
  {
    hide Wire, After, Encrypt, Decrypt, BodyLength;
    var pending := w.writebuf[w.writePos..w.writePos + w.haveToWrite];
    var line := w.wire + pending;
    var text := Wire(w.blocks);
    assert line[..|r.taken|] == r.taken;
    LineRead(w.crypt, w.start, text, |r.taken|);
    var s := Plain(r.crypt, r.start, r.taken);
    assert s == text[..|r.taken|];
    assert Wire(r.accepted) <= text;
    Prefixes(r.accepted, w.blocks);
    if r.taken == w.wire && w.haveToWrite == 0 && Drained(r) {
      assert pending == [];
      assert s == text;
      NotBehind(r, w.blocks, s);
    }
  }

  // The block a reader has complete is the one that comes next.
  lemma CompleteIsNext(w: BinkpWriter, r: BinkpReader, b: Block)
    requires w.Valid() && r.Valid() && w.start == r.start && w.crypt == r.crypt && r.taken <= w.wire
    requires Fits(b) && Frame(b) == r.readbuf[..r.readPos]
    ensures |r.accepted| < |w.blocks| && w.blocks[|r.accepted|] == b
  {
    hide Wire, After, Encrypt, Decrypt, BodyLength, Frame, Fits;
    var line := w.wire + w.writebuf[w.writePos..w.writePos + w.haveToWrite];
    var text := Wire(w.blocks);
    assert line[..|r.taken|] == r.taken;
    LineRead(w.crypt, w.start, text, |r.taken|);
    assert Plain(r.crypt, r.start, r.taken) == text[..|r.taken|];
    WireAppend(r.accepted, b);
    assert Wire(r.accepted + [b]) <= text;
    Prefixes(r.accepted + [b], w.blocks);
  }

  lemma LineRead(crypt: bool, k: Keys, text: seq<Byte>, n: nat)
    requires n <= |Line(crypt, k, text)|
    ensures |Line(crypt, k, text)| == |text|
    ensures Plain(crypt, k, Line(crypt, k, text)[..n]) == text[..n]
  {
    hide Encrypt, Decrypt, After;
    if crypt {
      Pieces(k, text, n);
    }
  }

  lemma Prefixes(a: seq<Block>, b: seq<Block>)
    requires AllFit(a) && AllFit(b) && Wire(a) <= Wire(b)
    ensures a <= b
  {
    hide Wire;
    WireUnique(a, b, Wire(b));
  }

  // When the handshake needs no more blocks, exactly the bytes of the accepted ones have
  // been taken off the line: the next one is the first of the transfer.
  lemma NothingOvertaken(r: BinkpReader, hello: seq<Block>, next: seq<Byte>)
    requires r.Valid() && r.enough && !r.crypt
    requires AllFit(hello) && r.taken <= Wire(hello) + next && |r.accepted| == |hello|
    ensures r.accepted == hello && r.taken == Wire(hello)
  {
    hide Wire, BodyLength;
    assert r.readbuf[..0] == [];
    var line := Wire(hello) + next;
    assert Wire(r.accepted) == r.taken <= line && Wire(hello) <= line;
    if |Wire(r.accepted)| <= |Wire(hello)| {
      WireUnique(r.accepted, hello, line);
    } else {
      WireUnique(hello, r.accepted, line);
    }
  }
}
